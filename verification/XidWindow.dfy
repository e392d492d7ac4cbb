/** The client half of at-most-once delivery: which xids have been answered, in compressed form. */
module XidWindow {

  predicate Sorted(w: seq<nat>) {
    forall i, j :: 0 <= i < j < |w| ==> w[i] <= w[j]
  }

  /**
   * `w` is a window for the reported xids: its front `n` is the largest number with 1..n all
   * reported, and beyond the front it holds exactly the reported xids.
   */
  ghost predicate WindowFor(w: seq<nat>, reported: set<nat>) {
    && Covers(w, reported)
    && w[0] + 1 !in reported
  }

  /** The same, except that the front may still be too small. */
  ghost predicate Covers(w: seq<nat>, reported: set<nat>) {
    && |w| > 0 && Sorted(w)
    && (forall x :: 1 <= x <= w[0] ==> x in reported)
    && (forall x :: x > w[0] ==> (x in reported <==> x in w))
  }

  /** Insertion before the first larger element. */
  function Inserted(w: seq<nat>, x: nat): (r: seq<nat>)
    ensures |r| == |w| + 1
  {
    if w == [] then [x] else if w[0] > x then [x] + w else [w[0]] + Inserted(w[1..], x)
  }

  /** The compression loop, with its iterator at position `j`; dropping the front moves it down. */
  function Compressed(w: seq<nat>, j: nat): (r: seq<nat>)
    ensures w != [] ==> r != []
    decreases |w| + |w| - j
  {
    if j >= |w| then w
    else if w[0] + 1 == w[j] then Compressed(w[1..], j - 1)
    else Compressed(w, j + 1)
  }

  function Updated(w: seq<nat>, x: nat): (r: seq<nat>)
    requires w != []
    ensures r != []
  {
    if x <= w[0] then w else Compressed(Inserted(w, x), 1)
  }

  lemma {:induction false} InsertedCount(w: seq<nat>, x: nat)
    ensures multiset(Inserted(w, x)) == multiset(w) + multiset{x}
  {
    if w != [] && w[0] <= x {
      InsertedCount(w[1..], x);
      assert w == [w[0]] + w[1..];
    }
  }

  lemma {:induction false} InsertedSorted(w: seq<nat>, x: nat)
    requires Sorted(w)
    ensures Sorted(Inserted(w, x))
    ensures w != [] && w[0] <= x ==> Inserted(w, x)[0] == w[0]
    ensures w == [] || w[0] > x ==> Inserted(w, x)[0] == x
  {
    if w != [] && w[0] <= x {
      var r := Inserted(w[1..], x);
      InsertedSorted(w[1..], x);
      assert forall k :: 0 <= k < |r| ==> r[0] <= r[k];
    }
  }

  lemma InsertedCovers(w: seq<nat>, x: nat, reported: set<nat>)
    requires Covers(w, reported) && x > w[0]
    ensures Covers(Inserted(w, x), reported + {x})
  {
    InsertedSorted(w, x);
    InsertedCount(w, x);
    var r := Inserted(w, x);
    forall y ensures y in r <==> y in w || y == x {
      assert y in r <==> y in multiset(r);
      assert y in w <==> y in multiset(w);
    }
  }

  /** Nothing that the iterator has passed is the successor of the front. */
  predicate Passed(w: seq<nat>, j: nat) {
    |w| > 0 && forall k :: 1 <= k < j && k < |w| ==> w[k] != w[0] + 1
  }

  lemma {:induction false} CompressedIsWindow(w: seq<nat>, j: nat, reported: set<nat>)
    requires Covers(w, reported) && Passed(w, j)
    ensures WindowFor(Compressed(w, j), reported)
    decreases |w| + |w| - j
  {
    if j >= |w| {
      if w[0] + 1 in reported {
        assert w[0] + 1 in w;
      }
    } else if w[0] + 1 == w[j] {
      DropFront(w, j, reported);
      CompressedIsWindow(w[1..], j - 1, reported);
    } else {
      CompressedIsWindow(w, j + 1, reported);
    }
  }

  /** Dropping the front while its successor stands at the iterator loses nothing. */
  lemma DropFront(w: seq<nat>, j: nat, reported: set<nat>)
    requires Covers(w, reported) && Passed(w, j) && 0 < j < |w| && w[j] == w[0] + 1
    ensures Covers(w[1..], reported) && Passed(w[1..], j - 1)
  {
    var r := w[1..];
    assert w[0] <= w[1] <= w[j];
    assert w[0] + 1 in reported by { assert w[j] in w; }
    assert w == [w[0]] + r;
    forall k | 1 <= k < j - 1 ensures r[k] != r[0] + 1 {
      assert r[k] == w[k + 1] <= w[j];
      assert w[0] <= w[1];
    }
  }

  /** One report keeps the window exact, whatever its xid and however often it is reported. */
  lemma UpdatedIsWindow(w: seq<nat>, x: nat, reported: set<nat>)
    requires WindowFor(w, reported) && x > 0
    ensures WindowFor(Updated(w, x), reported + {x})
  {
    if x <= w[0] {
      assert reported + {x} == reported;
    } else {
      InsertedCovers(w, x, reported);
      CompressedIsWindow(Inserted(w, x), 1, reported + {x});
    }
  }

  function Replay(w: seq<nat>, reports: seq<nat>): (r: seq<nat>)
    requires w != []
    decreases |reports|
  {
    if reports == [] then w else Replay(Updated(w, reports[0]), reports[1..])
  }

  /** After any sequence of reports, in any order and with repeats, starting from the window [0]. */
  lemma {:induction false} ReplayIsWindow(w: seq<nat>, reports: seq<nat>, before: set<nat>)
    requires WindowFor(w, before) && forall i :: 0 <= i < |reports| ==> reports[i] > 0
    ensures WindowFor(Replay(w, reports), before + (set x | x in reports))
    decreases |reports|
  {
    if reports == [] {
      assert before + (set x | x in reports) == before;
    } else {
      UpdatedIsWindow(w, reports[0], before);
      ReplayIsWindow(Updated(w, reports[0]), reports[1..], before + {reports[0]});
      assert before + {reports[0]} + (set x | x in reports[1..]) == before + (set x | x in reports);
    }
  }

  /** No xid stands in the window twice. */
  predicate Strict(w: seq<nat>) {
    forall i, j :: 0 <= i < j < |w| ==> w[i] < w[j]
  }

  lemma {:induction false} InsertedStrict(w: seq<nat>, x: nat)
    requires Strict(w) && x !in w
    ensures Strict(Inserted(w, x))
    ensures forall k :: 0 <= k < |Inserted(w, x)| ==> Inserted(w, x)[k] in w || Inserted(w, x)[k] == x
  {
    if w != [] && w[0] < x {
      InsertedStrict(w[1..], x);
    }
  }

  lemma {:induction false} CompressedStrict(w: seq<nat>, j: nat)
    requires Strict(w)
    ensures Strict(Compressed(w, j))
    decreases |w| + |w| - j
  {
    if j < |w| {
      if w[0] + 1 == w[j] {
        CompressedStrict(w[1..], j - 1);
      } else {
        CompressedStrict(w, j + 1);
      }
    }
  }

  lemma {:induction false} NothingCompressed(w: seq<nat>, j: nat)
    requires |w| > 0 && w[0] + 1 !in w
    ensures Compressed(w, j) == w
    decreases |w| + |w| - j
  {
    if j < |w| {
      NothingCompressed(w, j + 1);
    }
  }

  lemma RepeatStays(w: seq<nat>, x: nat, reported: set<nat>)
    requires WindowFor(w, reported) && x > w[0] && x in w
    ensures !Strict(Updated(w, x))
  {
    var r := Inserted(w, x);
    InsertedSorted(w, x);
    InsertedCount(w, x);
    assert w[0] + 1 !in r by {
      assert w[0] + 1 in r <==> w[0] + 1 in multiset(r);
    }
    NothingCompressed(r, 1);
    if Strict(r) {
      StrictCount(r, x);
    }
  }

  lemma {:induction false} StrictCount(w: seq<nat>, x: nat)
    requires Strict(w)
    ensures multiset(w)[x] <= 1
  {
    if w != [] {
      StrictCount(w[1..], x);
      assert w == [w[0]] + w[1..];
    }
  }

  /** One report keeps the window free of repeats exactly if it is below the front or not in the window yet. */
  lemma UpdatedStrict(w: seq<nat>, x: nat, reported: set<nat>)
    requires WindowFor(w, reported) && Strict(w)
    ensures Strict(Updated(w, x)) <==> x <= w[0] || x !in reported
  {
    if x > w[0] {
      if x in w {
        RepeatStays(w, x, reported);
      } else {
        InsertedStrict(w, x);
        CompressedStrict(Inserted(w, x), 1);
      }
    }
  }

  /** The window is free of repeats now and after every further report. */
  predicate StaysStrict(w: seq<nat>, reports: seq<nat>)
    requires w != []
    decreases |reports|
  {
    Strict(w) && (reports == [] || StaysStrict(Updated(w, reports[0]), reports[1..]))
  }

  /** Every report is new, or is acknowledged by the front at that time. */
  ghost predicate NoneRepeated(w: seq<nat>, reports: seq<nat>, before: set<nat>)
    requires w != []
    decreases |reports|
  {
    reports == [] || ((reports[0] <= w[0] || reports[0] !in before)
                      && NoneRepeated(Updated(w, reports[0]), reports[1..], before + {reports[0]}))
  }

  /** Over any sequence of reports the window stays free of repeats exactly if no report repeats one above the front. */
  lemma {:induction false} StrictIffNoneRepeated(w: seq<nat>, reports: seq<nat>, before: set<nat>)
    requires WindowFor(w, before) && Strict(w) && forall i :: 0 <= i < |reports| ==> reports[i] > 0
    ensures StaysStrict(w, reports) <==> NoneRepeated(w, reports, before)
    decreases |reports|
  {
    if reports != [] {
      UpdatedIsWindow(w, reports[0], before);
      UpdatedStrict(w, reports[0], before);
      if Strict(Updated(w, reports[0])) {
        StrictIffNoneRepeated(Updated(w, reports[0]), reports[1..], before + {reports[0]});
      }
    }
  }

  /** A window can hold a reported xid twice: sorted means non-decreasing, not increasing. */
  lemma DuplicatesHappen()
    ensures Replay([0], [2, 2]) == [0, 2, 2]
    ensures Replay([0], [2, 2, 1]) == [2, 2]
  {
    assert Inserted([0], 2) == [0] + Inserted([], 2) == [0, 2];
    assert Updated([0], 2) == Compressed([0, 2], 1) == [0, 2];
    assert [0, 2][1..] == [2] && Inserted([2], 2) == [2] + Inserted([], 2) == [2, 2];
    assert Inserted([0, 2], 2) == [0] + Inserted([2], 2) == [0, 2, 2];
    assert Updated([0, 2], 2) == Compressed([0, 2, 2], 1) == [0, 2, 2];
    assert Inserted([0, 2, 2], 1) == [0] + ([1] + [2, 2]) == [0, 1, 2, 2];
    assert [0, 1, 2, 2][1..] == [1, 2, 2] && [1, 2, 2][1..] == [2, 2];
    assert Updated([0, 2, 2], 1) == Compressed([0, 1, 2, 2], 1) == Compressed([1, 2, 2], 0);
    assert Compressed([1, 2, 2], 0) == Compressed([2, 2], 0) == [2, 2];
    assert Replay([0], [2, 2]) == Replay([0, 2], [2]) == Replay([0, 2, 2], []);
    assert [2, 2, 1][1..] == [2, 1] && [2, 1][1..] == [1];
    assert Replay([0], [2, 2, 1]) == Replay([0, 2], [2, 1]) == Replay([0, 2, 2], [1]) == Replay([2, 2], []);
  }

  /** An element that is not larger stays in front. */
  lemma InsertLater(w: seq<nat>, it: nat, x: nat)
    requires it < |w| && w[it] <= x
    ensures w[..it] + Inserted(w[it..], x) == w[..it + 1] + Inserted(w[it + 1..], x)
  {
    assert w[it..][1..] == w[it + 1..];
    var rest := Inserted(w[it + 1..], x);
    assert w[..it] + ([w[it]] + rest) == (w[..it] + [w[it]]) + rest;
    assert w[..it] + [w[it]] == w[..it + 1];
  }

  class RpcClient {
    var xid: nat
    var xidRepWindow: seq<nat>
    ghost var reported: set<nat>

    /** Only issued xids are ever reported, so the front stays below the next xid. */
    ghost predicate Valid()
      reads this
    {
      WindowFor(xidRepWindow, reported) && xid > 0 && forall x :: x in reported ==> 0 < x < xid
    }

    constructor ()
      ensures Valid() && xid == 1 && reported == {}
    {
      xid, xidRepWindow, reported := 1, [0], {};
    }

    /** The header of a new call: its xid, and the largest xid up to which all replies have arrived. */
    method NewCall() returns (callXid: nat, xidRep: nat)
      requires Valid()
      modifies this
      ensures Valid() && callXid == old(xid) && xid == callXid + 1
      ensures reported == old(reported) && xidRepWindow == old(xidRepWindow)
      ensures xidRep < callXid
      ensures (forall x :: 1 <= x <= xidRep ==> x in reported) && xidRep + 1 !in reported
    {
      if xidRepWindow[0] > 0 {
        assert xidRepWindow[0] in reported;
      }
      callXid, xidRep := xid, xidRepWindow[0];
      xid := xid + 1;
    }

    /** Any xid may arrive; one that was issued leaves the client valid. */
    method UpdateXidRep(x: nat)
      requires WindowFor(xidRepWindow, reported)
      modifies this
      ensures WindowFor(xidRepWindow, reported) && (old(Valid()) && x < xid ==> Valid())
      ensures xid == old(xid) && reported == old(reported) + (if x > 0 then {x} else {})
      ensures xidRepWindow == Updated(old(xidRepWindow), x)
    {
      if x <= xidRepWindow[0] {
        reported := reported + if x > 0 then {x} else {};
        return;
      }
      UpdatedIsWindow(xidRepWindow, x, reported);
      var w := InsertXid(xidRepWindow, x);
      xidRepWindow := Compress(w);
      reported := reported + {x};
    }

    static method InsertXid(w: seq<nat>, x: nat) returns (r: seq<nat>)
      ensures r == Inserted(w, x)
    {
      var it := 0;
      while it < |w| && w[it] <= x
        invariant 0 <= it <= |w|
        invariant Inserted(w, x) == w[..it] + Inserted(w[it..], x)
      {
        InsertLater(w, it, x);
        it := it + 1;
      }
      r := w[..it] + [x] + w[it..];
      assert it == |w| ==> w[it..] == [];
    }

    /** Pops the front while the element under the iterator continues it. */
    static method Compress(w: seq<nat>) returns (r: seq<nat>)
      requires |w| > 1
      ensures r == Compressed(w, 1)
    {
      r := w;
      var it := 1;
      while it < |r|
        invariant |r| > 0
        invariant Compressed(r, it) == Compressed(w, 1)
        decreases |r| + |r| - it
      {
        ghost var bound := |r| + |r| - it;
        while r[0] + 1 == r[it]
          invariant |r| + |r| - it <= bound
          invariant 0 <= it < |r|
          invariant Compressed(r, it) == Compressed(w, 1)
          decreases |r|
        {
          assert it != 0;  // the element under the iterator is never the one that is popped
          r := r[1..];
          it := it - 1;
        }
        it := it + 1;
      }
    }
  }
}
