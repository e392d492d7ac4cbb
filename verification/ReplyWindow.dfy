/** The server half of at-most-once delivery: the remembered requests of one client, in xid order. */
module ReplyWindow {

  /** A malloc'ed reply buffer; 0 is the null pointer. */
  type Buffer = nat

  const NULL: Buffer := 0

  const SLIDING_WINDOW_SIZE := 100

  datatype Entry = Entry(xid: nat, present: bool, buf: Buffer, sz: nat)

  datatype Verdict = NEW | INPROGRESS | DONE(buf: Buffer, sz: nat) | FORGOTTEN

  predicate Sorted(w: seq<Entry>) {
    forall i, j :: 0 <= i < j < |w| ==> w[i].xid < w[j].xid
  }

  predicate Has(w: seq<Entry>, xid: nat) {
    exists i :: 0 <= i < |w| && w[i].xid == xid
  }

  /** How many leading entries a call with this `rep` drops: only while 100 or more remain. */
  function Dropped(w: seq<Entry>, rep: nat): (n: nat)
    ensures n <= |w|
  {
    if |w| >= SLIDING_WINDOW_SIZE && w[0].xid <= rep then 1 + Dropped(w[1..], rep) else 0
  }

  function Pruned(w: seq<Entry>, rep: nat): seq<Entry> {
    w[Dropped(w, rep)..]
  }

  function IndexOf(w: seq<Entry>, xid: nat): (i: int)
    ensures -1 <= i < |w|
    ensures i >= 0 ==> w[i].xid == xid
    ensures i == -1 ==> !Has(w, xid)
  {
    if w == [] then -1
    else if w[0].xid == xid then 0
    else
      var i := IndexOf(w[1..], xid);
      assert forall k :: 1 <= k < |w| ==> w[k] == w[1..][k - 1];
      if i == -1 then -1 else i + 1
  }

  /** The answer to a request; it is taken from the window as it was before pruning. */
  function Check(w: seq<Entry>, xid: nat): Verdict {
    var i := IndexOf(w, xid);
    if w == [] then NEW
    else if i == -1 then if xid < w[0].xid then FORGOTTEN else NEW
    else if w[i].present then DONE(w[i].buf, w[i].sz)
    else INPROGRESS
  }

  function Inserted(w: seq<Entry>, xid: nat): (r: seq<Entry>)
    ensures |r| == |w| + 1
  {
    if w == [] then [Entry(xid, false, NULL, 0)]
    else if xid < w[0].xid then [Entry(xid, false, NULL, 0)] + w
    else [w[0]] + Inserted(w[1..], xid)
  }

  /** The window after a request. */
  function Checked(w: seq<Entry>, xid: nat, rep: nat): seq<Entry> {
    if Check(w, xid) == NEW then Inserted(Pruned(w, rep), xid) else Pruned(w, rep)
  }

  /** The window after the handler's reply is recorded. */
  function Recorded(w: seq<Entry>, xid: nat, b: Buffer, sz: nat): (r: seq<Entry>)
    ensures |r| == |w|
    ensures forall i :: 0 <= i < |w| ==> r[i] == if w[i].xid == xid then Entry(xid, true, b, sz) else w[i]
  {
    if w == [] then []
    else
      var rest := Recorded(w[1..], xid, b, sz);
      [if w[0].xid == xid then Entry(xid, true, b, sz) else w[0]] + rest
  }

  // ----- what pruning keeps -----

  /** A pruning call drops acknowledged entries only, and stops at 99 or at the first unacknowledged one. */
  lemma {:induction false} DroppedExactly(w: seq<Entry>, rep: nat)
    requires Sorted(w)
    ensures forall i :: 0 <= i < Dropped(w, rep) ==> w[i].xid <= rep
    ensures Dropped(w, rep) > 0 ==> |w| - Dropped(w, rep) >= 99
    ensures |w| - Dropped(w, rep) < 100
         || forall i :: Dropped(w, rep) <= i < |w| ==> w[i].xid > rep
    decreases |w|
  {
    var n := Dropped(w, rep);
    if |w| >= SLIDING_WINDOW_SIZE && w[0].xid <= rep {
      DroppedExactly(w[1..], rep);
      assert n == 1 + Dropped(w[1..], rep);
      forall i | 0 <= i < n ensures w[i].xid <= rep {
        assert i > 0 ==> w[i] == w[1..][i - 1];
      }
      if |w| - n >= SLIDING_WINDOW_SIZE {
        forall i | n <= i < |w| ensures w[i].xid > rep {
          assert w[i] == w[1..][i - 1];
        }
      }
    }
  }

  lemma {:induction false} InsertedSorted(w: seq<Entry>, xid: nat)
    requires Sorted(w) && !Has(w, xid)
    ensures Sorted(Inserted(w, xid))
    ensures Inserted(w, xid)[0].xid == if w == [] || xid < w[0].xid then xid else w[0].xid
    decreases |w|
  {
    if w != [] && w[0].xid < xid {
      TailLacks(w, xid);
      InsertedSorted(w[1..], xid);
      var r := Inserted(w[1..], xid);
      assert forall k :: 0 < k < |r| ==> r[0].xid < r[k].xid;
    }
  }

  lemma TailLacks(w: seq<Entry>, xid: nat)
    requires w != [] && !Has(w, xid)
    ensures !Has(w[1..], xid) && w[0].xid != xid
  {
    assert forall k :: 0 <= k < |w| - 1 ==> w[1..][k] == w[k + 1];
  }

  /** The entries after insertion: the old ones and a fresh one without a reply. */
  lemma {:induction false} InsertedEntries(w: seq<Entry>, xid: nat, e: Entry)
    ensures e in Inserted(w, xid) <==> e in w || e == Entry(xid, false, NULL, 0)
    decreases |w|
  {
    if w != [] && w[0].xid <= xid {
      InsertedEntries(w[1..], xid, e);
      assert w == [w[0]] + w[1..];
    }
  }

  /** The number of entries that the client has not acknowledged. */
  function Unacked(w: seq<Entry>, rep: nat): nat {
    if w == [] then 0 else Unacked(w[1..], rep) + if w[0].xid > rep then 1 else 0
  }

  lemma {:induction false} UnackedAll(w: seq<Entry>, rep: nat, n: nat)
    requires n <= |w| && forall i :: n <= i < |w| ==> w[i].xid > rep
    ensures Unacked(w, rep) >= |w| - n
    decreases |w|
  {
    if w != [] {
      UnackedAll(w[1..], rep, if n > 0 then n - 1 else 0);
    }
  }

  /** Pruning keeps the order; whatever it drops lies below what is left. */
  lemma PrunedKeeps(w: seq<Entry>, rep: nat)
    requires Sorted(w)
    ensures var p := Pruned(w, rep);
            && Sorted(p)
            && (w != [] ==> p != [] && w[0].xid <= p[0].xid)
            && (forall x: nat :: Has(p, x) ==> Has(w, x))
            && (forall x: nat :: Has(w, x) ==> Has(p, x) || (p != [] && x < p[0].xid && x <= rep))
  {
    var n := Dropped(w, rep);
    var p := Pruned(w, rep);
    DroppedExactly(w, rep);
    forall x: nat | Has(w, x) ensures Has(p, x) || (p != [] && x < p[0].xid && x <= rep) {
      var i :| 0 <= i < |w| && w[i].xid == x;
      assert i >= n ==> p[i - n] == w[i];
    }
    forall x: nat | Has(p, x) ensures Has(w, x) {
      var i :| 0 <= i < |p| && p[i].xid == x;
      assert w[i + n] == p[i];
    }
  }

  /** A request keeps the order and leaves a window that is not empty. */
  lemma CheckedSorted(w: seq<Entry>, xid: nat, rep: nat)
    requires Sorted(w)
    ensures Sorted(Checked(w, xid, rep)) && Checked(w, xid, rep) != []
    ensures forall x: nat :: Has(Checked(w, xid, rep), x) ==> Has(w, x) || (x == xid && Check(w, xid) == NEW)
    ensures Check(w, xid) == NEW ==> Has(Checked(w, xid, rep), xid)
  {
    PrunedKeeps(w, rep);
    if Check(w, xid) == NEW {
      NewIsFresh(w, xid);
      InsertedSorted(Pruned(w, rep), xid);
      InsertedHas(Pruned(w, rep), xid);
    }
  }

  /**
   * A request that acknowledges only earlier xids keeps every remembered xid in the window or below
   * its minimum, and the minimum never falls.
   */
  lemma CheckedKeeps(w: seq<Entry>, xid: nat, rep: nat)
    requires Sorted(w) && rep < xid
    ensures var v := Checked(w, xid, rep);
            && v != []
            && (w != [] ==> w[0].xid <= v[0].xid)
            && (forall x: nat :: Has(w, x) ==> Has(v, x) || x < v[0].xid)
  {
    var p := Pruned(w, rep);
    PrunedKeeps(w, rep);
    CheckedSorted(w, xid, rep);
    if Check(w, xid) == NEW {
      NewIsFresh(w, xid);
      InsertedSorted(p, xid);
      InsertedHas(p, xid);
    }
  }

  /** A remembered xid is taken for new after the request. */
  predicate Reruns(w: seq<Entry>, xid: nat, rep: nat, x: nat) {
    Has(w, x) && Check(Checked(w, xid, rep), x) == NEW
  }

  /** Without that bound it fails: a pruned xid is taken for new, so its handler would run again. */
  lemma LateAcknowledgementForgets()
    ensures exists w, xid: nat, rep: nat, x: nat :: Sorted(w) && rep >= xid && Reruns(w, xid, rep, x)
  {
    var w := seq(102, i requires i >= 0 => Entry(2 * i + 1, true, i + 1, 1));
    assert w[1].xid == 3 && w[2].xid == 5;
    assert w[1..][0] == w[1] && w[1..][1..][0] == w[2];
    assert Dropped(w[1..][1..], 3) == 0;
    assert Dropped(w[1..], 3) == 1;
    assert Dropped(w, 3) == 2;
    assert !Has(w, 2);
    FreshRefused(w, 2);
    var v := Checked(w, 2, 3);
    assert v == [Entry(2, false, NULL, 0)] + w[2..];
    assert !Has(v, 3);
    FreshRefused(v, 3);
    assert Has(w, 3);
    assert Reruns(w, 2, 3, 3);
  }

  lemma NewIsFresh(w: seq<Entry>, xid: nat)
    ensures Check(w, xid) == NEW ==> !Has(w, xid)
  {
  }

  /** The length after a request is at most 100, or one more than the unacknowledged entries. */
  lemma CheckedLength(w: seq<Entry>, xid: nat, rep: nat)
    requires Sorted(w)
    ensures |Checked(w, xid, rep)| <= 100 || |Checked(w, xid, rep)| <= Unacked(w, rep) + 1
  {
    DroppedExactly(w, rep);
    if |Pruned(w, rep)| >= SLIDING_WINDOW_SIZE {
      UnackedAll(w, rep, Dropped(w, rep));
    }
  }

  lemma InsertedHas(w: seq<Entry>, xid: nat)
    ensures forall x: nat :: Has(Inserted(w, xid), x) <==> Has(w, x) || x == xid
  {
    var r := Inserted(w, xid);
    forall x: nat ensures Has(r, x) <==> Has(w, x) || x == xid {
      if Has(r, x) {
        var i :| 0 <= i < |r| && r[i].xid == x;
        InsertedEntries(w, xid, r[i]);
        assert r[i] in r;
      }
      if Has(w, x) {
        var i :| 0 <= i < |w| && w[i].xid == x;
        InsertedEntries(w, xid, w[i]);
        assert w[i] in r;
      }
      if x == xid {
        InsertedEntries(w, xid, Entry(xid, false, NULL, 0));
        assert Entry(xid, false, NULL, 0) in r;
      }
    }
  }

  /** A request that was never remembered is refused exactly if it lies below the window. */
  lemma FreshRefused(w: seq<Entry>, xid: nat)
    requires !Has(w, xid)
    ensures Check(w, xid) == if w != [] && xid < w[0].xid then FORGOTTEN else NEW
  {
    var i := IndexOf(w, xid);
    if i >= 0 {
      assert Has(w, xid);
    }
  }

  /** The first request of a client fixes the minimum: an earlier xid that arrives later never runs. */
  lemma ReorderedRefused()
    ensures Checked([], 2, 0) == [Entry(2, false, NULL, 0)]
    ensures !Has(Checked([], 2, 0), 1) && Check(Checked([], 2, 0), 1) == FORGOTTEN
  {
    var w := Checked([], 2, 0);
    assert Pruned([], 0) == [];
    assert w == [Entry(2, false, NULL, 0)];
    assert !Has(w, 1);
    FreshRefused(w, 1);
  }

  // ----- the loops of the server -----

  /** The buffers of the entries, without the null ones: what `free` releases. */
  function Buffers(w: seq<Entry>): seq<Buffer> {
    if w == [] then []
    else (if w[0].buf == NULL then [] else [w[0].buf]) + Buffers(w[1..])
  }

  /** After `k` drops there is one more to come exactly if the guard holds of the next entry. */
  lemma {:induction false} DropsNext(w: seq<Entry>, k: nat, rep: nat)
    requires k <= Dropped(w, rep)
    ensures k < Dropped(w, rep) <==> |w| - k >= SLIDING_WINDOW_SIZE && w[k].xid <= rep
    decreases k
  {
    if k > 0 {
      DropsNext(w[1..], k - 1, rep);
    }
  }

  lemma EraseFront(w: seq<Entry>, list: seq<Entry>, k: nat, i: nat)
    requires k < |w| && list == w[k..] && i == 0
    ensures list[..i] + list[i + 1..] == w[k + 1..] && w[..k] + [list[i]] == w[..k + 1]
  {
  }

  lemma FoundAt(w: seq<Entry>, i: nat)
    requires Sorted(w) && i < |w|
    ensures IndexOf(w, w[i].xid) == i
  {
    assert Has(w, w[i].xid);
  }

  function Min(a: nat, b: nat): nat {
    if a < b then a else b
  }

  function ListOf(windows: map<nat, seq<Entry>>, n: nat): seq<Entry> {
    if n in windows then windows[n] else []
  }

  /** `order` names each nonce once. */
  ghost predicate IsListing(order: seq<nat>, nonces: set<nat>) {
    && (forall n :: n in order <==> n in nonces)
    && (forall i, j :: 0 <= i < j < |order| ==> order[i] != order[j])
  }

  lemma ListingNext(order: seq<nat>, nonces: set<nat>, n: nat)
    requires IsListing(order, nonces) && n !in nonces
    ensures IsListing(order + [n], nonces + {n})
  {
    forall i, j | 0 <= i < j < |order + [n]| ensures (order + [n])[i] != (order + [n])[j] {
      assert order[i] in order;
    }
  }

  function AllBuffers(windows: map<nat, seq<Entry>>, order: seq<nat>): seq<Buffer> {
    if order == [] then [] else Buffers(ListOf(windows, order[0])) + AllBuffers(windows, order[1..])
  }

  lemma {:induction false} AllBuffersNext(windows: map<nat, seq<Entry>>, order: seq<nat>, n: nat)
    ensures AllBuffers(windows, order + [n]) == AllBuffers(windows, order) + Buffers(ListOf(windows, n))
    decreases |order|
  {
    if order == [] {
      assert order + [n] == [n];
    } else {
      AllBuffersNext(windows, order[1..], n);
      assert (order + [n])[1..] == order[1..] + [n];
      JoinBuffers(Buffers(ListOf(windows, order[0])), AllBuffers(windows, order[1..]), Buffers(ListOf(windows, n)));
    }
  }

  lemma JoinBuffers(a: seq<Buffer>, b: seq<Buffer>, c: seq<Buffer>)
    ensures a + (b + c) == (a + b) + c
  {
  }

  lemma NextRecorded(w: seq<Entry>, before: seq<Entry>, list: seq<Entry>, r: seq<Entry>, i: nat)
    requires i < |w| == |before| == |list| == |r| && before[..i] == r[..i] && before[i..] == w[i..]
    requires list == before[i := r[i]]
    ensures list[..i + 1] == r[..i + 1] && list[i + 1..] == w[i + 1..]
  {
    assert list[..i + 1] == before[..i] + [r[i]] == r[..i + 1];
    assert list[i + 1..] == before[i..][1..] == w[i..][1..];
  }

  /** An entry that is not larger stays in front. */
  lemma InsertLater(w: seq<Entry>, i: nat, xid: nat)
    requires i < |w| && w[i].xid <= xid
    ensures w[..i] + Inserted(w[i..], xid) == w[..i + 1] + Inserted(w[i + 1..], xid)
  {
    assert w[i..][1..] == w[i + 1..];
    var rest := Inserted(w[i + 1..], xid);
    assert w[..i] + ([w[i]] + rest) == (w[..i] + [w[i]]) + rest;
    assert w[..i] + [w[i]] == w[..i + 1];
  }

  class Rpcs {
    var replyWindow: map<nat, seq<Entry>>
    ghost var freed: seq<Buffer>

    ghost predicate Valid()
      reads this
    {
      forall n :: n in replyWindow ==> Sorted(replyWindow[n])
    }

    constructor ()
      ensures Valid() && replyWindow == map[] && freed == []
    {
      replyWindow := map[];
      freed := [];
    }

    /** The scan: finds the entry and its reply, the minimum, and erases as it goes. */
    static method Scan(w: seq<Entry>, xid: nat, rep: nat)
      returns (list: seq<Entry>, min: nat, found: bool, entry: Entry, ghost erased: seq<Entry>)
      requires Sorted(w) && w != []
      ensures list == Pruned(w, rep) && min == w[0].xid
      ensures found <==> IndexOf(w, xid) >= 0
      ensures found ==> entry == w[IndexOf(w, xid)]
      ensures erased == w[..Dropped(w, rep)]
    {
      list, min, found, entry, erased := w, w[0].xid, false, w[0], [];
      ghost var k, ix := 0, IndexOf(w, xid);
      var i := 0;
      while i < |list|
        invariant 0 <= k <= |w| && list == w[k..] && 0 <= i <= |list|
        invariant min == w[0].xid
        invariant found <==> 0 <= ix < k + i
        invariant found ==> entry == w[ix]
        invariant k <= Dropped(w, rep) && (i > 0 ==> k == Dropped(w, rep))
        invariant erased == w[..k]
        decreases |list| - i
      {
        assert list[i] == w[k + i];
        var x := list[i].xid;
        if x == xid {
          found, entry := true, list[i];
          FoundAt(w, k + i);
        }
        min := Min(x, min);
        DropsNext(w, k, rep);
        if |list| >= SLIDING_WINDOW_SIZE && x <= rep {
          assert i == 0;
          EraseFront(w, list, k, i);
          erased := erased + [list[i]];
          list, k := list[..i] + list[i + 1..], k + 1;
        } else {
          i := i + 1;
        }
      }
    }

    /** The sorted insertion of a request without a reply. */
    static method InsertRequest(w: seq<Entry>, xid: nat) returns (list: seq<Entry>)
      ensures list == Inserted(w, xid)
    {
      var i := 0;
      while i < |w| && w[i].xid <= xid
        invariant 0 <= i <= |w|
        invariant Inserted(w, xid) == w[..i] + Inserted(w[i..], xid)
      {
        InsertLater(w, i, xid);
        i := i + 1;
      }
      list := w[..i] + [Entry(xid, false, NULL, 0)] + w[i..];
      assert i == |w| ==> w[i..] == [];
    }

    method CheckDuplicateAndUpdate(n: nat, xid: nat, rep: nat) returns (status: Verdict)
      requires Valid()
      modifies this
      ensures Valid()
      ensures var w := ListOf(old(replyWindow), n);
              && status == Check(w, xid)
              && replyWindow == old(replyWindow)[n := Checked(w, xid, rep)]
              && freed == old(freed) + Buffers(w[..Dropped(w, rep)])
    {
      var w := if n in replyWindow then replyWindow[n] else [];
      var list := w;
      CheckedSorted(w, xid, rep);
      if |w| == 0 {
        status := NEW;
      } else {
        var min, found, entry;
        ghost var erased;
        list, min, found, entry, erased := Scan(w, xid, rep);
        freed := freed + Buffers(erased);
        if !found {
          status := if xid < min then FORGOTTEN else NEW;
        } else {
          status := if entry.present then DONE(entry.buf, entry.sz) else INPROGRESS;
        }
      }
      if status == NEW {
        list := InsertRequest(list, xid);
      }
      replyWindow := replyWindow[n := list];
    }

    method AddReply(n: nat, xid: nat, b: Buffer, sz: nat)
      requires Valid()
      modifies this
      ensures Valid() && freed == old(freed)
      ensures replyWindow == old(replyWindow)[n := Recorded(ListOf(old(replyWindow), n), xid, b, sz)]
    {
      var w := if n in replyWindow then replyWindow[n] else [];
      var list := SetReply(w, xid, b, sz);
      replyWindow := replyWindow[n := list];
    }

    static method SetReply(w: seq<Entry>, xid: nat, b: Buffer, sz: nat) returns (list: seq<Entry>)
      ensures list == Recorded(w, xid, b, sz)
    {
      list := w;
      for i := 0 to |w|
        invariant |list| == |w| && list[..i] == Recorded(w, xid, b, sz)[..i] && list[i..] == w[i..]
      {
        ghost var before := list;
        assert list[i] == list[i..][0] == w[i];
        if list[i].xid == xid {
          list := list[i := Entry(xid, true, b, sz)];
        }
        NextRecorded(w, before, list, Recorded(w, xid, b, sz), i);
      }
    }

    /** Shutdown: one pass over all clients, in some order of the nonces. */
    method FreeReplyWindow() returns (ghost order: seq<nat>)
      modifies this
      ensures replyWindow == map[] && IsListing(order, old(replyWindow).Keys)
      ensures freed == old(freed) + AllBuffers(old(replyWindow), order)
    {
      var windows := replyWindow;
      var rest := windows.Keys;
      ghost var gone: seq<Buffer> := [];
      order := [];
      while rest != {}
        invariant rest <= windows.Keys
        invariant IsListing(order, windows.Keys - rest)
        invariant gone == AllBuffers(windows, order) && freed == old(freed)
        decreases |rest|
      {
        var n :| n in rest;
        gone := gone + Buffers(windows[n]);
        AllBuffersNext(windows, order, n);
        ListingNext(order, windows.Keys - rest, n);
        assert windows.Keys - rest + {n} == windows.Keys - (rest - {n});
        order, rest := order + [n], rest - {n};
      }
      assert windows.Keys - rest == windows.Keys;
      replyWindow, freed := map[], freed + gone;
    }
  }
}
