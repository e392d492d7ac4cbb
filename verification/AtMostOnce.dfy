/**
 * Clients, a network that delays, reorders and duplicates requests, and one server.
 * One step per critical section.
 */
module AtMostOnce {
  import opened ReplyWindow
  import XidWindow

  datatype Client = Client(nonce: nat, nextXid: nat, window: seq<nat>, reported: set<nat>)

  datatype Request = Request(nonce: nat, srvNonce: nat, xid: nat, rep: nat)

  datatype Key = Key(nonce: nat, xid: nat)

  datatype Answer = Answer(buf: Buffer, sz: nat)

  datatype State = State(
    clients: map<nat, Client>,
    net: set<Request>,            // every request ever sent; any of them may arrive at any time
    srvNonce: nat,
    windows: map<nat, seq<Entry>>,
    stopped: bool,
    ran: seq<Key>,                // the handler invocations so far
    running: set<Key>,            // handlers of at-most-once requests that have not returned
    recorded: map<Key, Answer>,   // what each add_reply call passed
    lost: set<Key>,               // add_reply calls that found no entry
    freed: seq<Buffer>,
    nextBuf: Buffer
  )

  datatype Step =
    | Call(c: nat, srvNonce: nat)
    | Report(c: nat, x: nat)
    | Dispatch(r: Request)
    | Finish(k: Key, sz: nat)
    | Shutdown(order: seq<nat>)

  datatype Outcome = OldServer | Runs | Silent | Resend(buf: Buffer, sz: nat) | Refused

  // ----- steps -----

  function Called(s: State, c: nat, srvNonce: nat): State
    requires c in s.clients && s.clients[c].window != []
  {
    var cl := s.clients[c];
    s.(clients := s.clients[c := cl.(nextXid := cl.nextXid + 1)],
       net := s.net + {Request(cl.nonce, srvNonce, cl.nextXid, cl.window[0])})
  }

  /** A reply arrived for xid `x`, or its caller gave up. */
  function Reported(s: State, c: nat, x: nat): State
    requires c in s.clients && s.clients[c].window != []
  {
    var cl := s.clients[c];
    s.(clients := s.clients[c := cl.(window := XidWindow.Updated(cl.window, x), reported := cl.reported + {x})])
  }

  /** What the server does with a request. */
  function Response(s: State, r: Request): Outcome {
    if r.srvNonce != 0 && r.srvNonce != s.srvNonce then OldServer
    else if r.nonce == 0 then Runs
    else
      match Check(ListOf(s.windows, r.nonce), r.xid)
      case NEW => Runs
      case INPROGRESS => Silent
      case DONE(b, sz) => Resend(b, sz)
      case FORGOTTEN => Refused
  }

  function Looked(s: State, r: Request): State {
    var w := ListOf(s.windows, r.nonce);
    s.(windows := s.windows[r.nonce := Checked(w, r.xid, r.rep)],
       freed := s.freed + Buffers(w[..Dropped(w, r.rep)]))
  }

  function Dispatched(s: State, r: Request): State {
    var k := Key(r.nonce, r.xid);
    var outcome := Response(s, r);
    if outcome == OldServer then s
    else if r.nonce == 0 then s.(ran := s.ran + [k])
    else if outcome == Runs then Looked(s, r).(ran := s.ran + [k], running := s.running + {k})
    else Looked(s, r)
  }

  function Finished(s: State, k: Key, sz: nat): State {
    var w := ListOf(s.windows, k.nonce);
    s.(windows := s.windows[k.nonce := ReplyWindow.Recorded(w, k.xid, s.nextBuf, sz)],
       running := s.running - {k},
       recorded := s.recorded[k := Answer(s.nextBuf, sz)],
       lost := if Has(w, k.xid) then s.lost else s.lost + {k},
       nextBuf := s.nextBuf + 1)
  }

  function Stopped(s: State, order: seq<nat>): State {
    s.(windows := map[], stopped := true, freed := s.freed + AllBuffers(s.windows, order))
  }

  ghost predicate Enabled(s: State, step: Step) {
    match step
    case Call(c, _) => c in s.clients && s.clients[c].window != []
    case Report(c, x) => c in s.clients && s.clients[c].window != [] && 0 < x < s.clients[c].nextXid
    case Dispatch(r) => !s.stopped && r in s.net
    case Finish(k, _) => k in s.running
    case Shutdown(order) => !s.stopped && s.running == {} && IsListing(order, s.windows.Keys)
  }

  ghost function Apply(s: State, step: Step): State
    requires Enabled(s, step)
  {
    match step
    case Call(c, srvNonce) => Called(s, c, srvNonce)
    case Report(c, x) => Reported(s, c, x)
    case Dispatch(r) => Dispatched(s, r)
    case Finish(k, sz) => Finished(s, k, sz)
    case Shutdown(order) => Stopped(s, order)
  }

  ghost predicate IsRun(s: State, run: seq<Step>)
    decreases |run|
  {
    run == [] || (Enabled(s, run[0]) && IsRun(Apply(s, run[0]), run[1..]))
  }

  ghost function Exec(s: State, run: seq<Step>): State
    requires IsRun(s, run)
    decreases |run|
  {
    if run == [] then s else Exec(Apply(s, run[0]), run[1..])
  }

  ghost predicate Init(s: State) {
    && (forall c :: c in s.clients ==>
          s.clients[c].nextXid == 1 && s.clients[c].window == [0] && s.clients[c].reported == {})
    && s.net == {} && s.windows == map[] && !s.stopped && s.ran == [] && s.running == {}
    && s.recorded == map[] && s.lost == {} && s.freed == [] && s.nextBuf == 1
  }

  /** `dispatch` up to the handler: what it answers, and what it leaves of the windows. */
  method Arrive(server: Rpcs, ghost s: State, srvNonce: nat, r: Request) returns (outcome: Outcome)
    requires server.Valid() && s.windows == server.replyWindow && s.freed == server.freed && s.srvNonce == srvNonce
    modifies server
    ensures server.Valid() && outcome == Response(s, r)
    ensures server.replyWindow == Dispatched(s, r).windows && server.freed == Dispatched(s, r).freed
  {
    if r.srvNonce != 0 && r.srvNonce != srvNonce {
      return OldServer;
    }
    var status := NEW;
    if r.nonce != 0 {
      status := server.CheckDuplicateAndUpdate(r.nonce, r.xid, r.rep);
    }
    match status {
      case NEW => outcome := Runs;
      case INPROGRESS => outcome := Silent;
      case DONE(b, sz) => outcome := Resend(b, sz);
      case FORGOTTEN => outcome := Refused;
    }
  }

  /** The client object is what the system has as that client. */
  ghost predicate IsClient(client: XidWindow.RpcClient, cl: Client)
    reads client
  {
    client.Valid() && cl.nextXid == client.xid && cl.window == client.xidRepWindow && cl.reported == client.reported
  }

  /** `call1` up to the send: the request that goes out is the one that the system sends. */
  method Issue(client: XidWindow.RpcClient, ghost s: State, ghost c: nat, nonce: nat, srvNonce: nat)
    returns (r: Request)
    requires c in s.clients && IsClient(client, s.clients[c]) && s.clients[c].nonce == nonce
    modifies client
    ensures Called(s, c, srvNonce).net == s.net + {r} && IsClient(client, Called(s, c, srvNonce).clients[c])
    ensures r.nonce == nonce && r.srvNonce == srvNonce && r.xid == old(client.xid)
    ensures Acknowledges(r.rep, s.clients[c].reported)
  {
    var xid, rep := client.NewCall();
    r := Request(nonce, srvNonce, xid, rep);
    FrontIsLargest(s.clients[c].window, s.clients[c].reported, rep);
  }

  /** `got_pdu` and the end of `call1`: the report of an xid that was issued. */
  method Note(client: XidWindow.RpcClient, ghost s: State, ghost c: nat, x: nat)
    requires c in s.clients && IsClient(client, s.clients[c]) && 0 < x < client.xid
    modifies client
    ensures IsClient(client, Reported(s, c, x).clients[c])
  {
    client.UpdateXidRep(x);
  }

  /** All up to `rep` and not the next one. */
  ghost predicate Acknowledges(rep: nat, reported: set<nat>) {
    (forall x :: 1 <= x <= rep ==> x in reported) && rep + 1 !in reported
  }

  lemma FrontIsLargest(w: seq<nat>, reported: set<nat>, rep: nat)
    requires XidWindow.WindowFor(w, reported) && Acknowledges(rep, reported)
    ensures rep == w[0]
  {
    var front := w[0];
    assert front + 1 !in reported && rep + 1 !in reported;
  }

  // ----- the invariant -----

  /** The acknowledged prefix is below every xid still to be issued. */
  ghost predicate ClientOk(cl: Client) {
    && XidWindow.WindowFor(cl.window, cl.reported)
    && cl.nextXid > 0
    && (forall x :: x in cl.reported ==> x < cl.nextXid)
  }

  predicate NetOk(net: set<Request>) {
    forall r :: r in net ==> r.rep < r.xid
  }

  predicate NoRepeat(ran: seq<Key>) {
    forall i, j :: 0 <= i < j < |ran| && ran[i].nonce != 0 ==> ran[i] != ran[j]
  }

  predicate NoDup(b: seq<Buffer>) {
    forall i, j :: 0 <= i < j < |b| ==> b[i] != b[j]
  }

  /** Every request of a client that ever ran is in the window or below it. */
  ghost predicate Remembers(w: seq<Entry>, n: nat, ran: seq<Key>) {
    && (forall x: nat :: Has(w, x) ==> Key(n, x) in ran)
    && (forall k :: k in ran && k.nonce == n ==> Has(w, k.xid) || (w != [] && k.xid < w[0].xid))
  }

  /** An entry holds the recorded reply, or its handler is still running. */
  predicate EntryOk(e: Entry, n: nat, running: set<Key>, recorded: map<Key, Answer>) {
    if e.present then Key(n, e.xid) in recorded && recorded[Key(n, e.xid)] == Answer(e.buf, e.sz)
    else e.buf == NULL && Key(n, e.xid) in running
  }

  ghost predicate WindowOk(w: seq<Entry>, n: nat, running: set<Key>, recorded: map<Key, Answer>) {
    Sorted(w) && forall i :: 0 <= i < |w| ==> EntryOk(w[i], n, running, recorded)
  }

  predicate Live(s: State, k: Key) {
    Has(ListOf(s.windows, k.nonce), k.xid)
  }

  /** A recorded buffer is in exactly one place: its window entry, the free list, or lost. */
  predicate Placed(s: State, k: Key)
    requires k in s.recorded
  {
    var gone := s.recorded[k].buf in s.freed;
    if k in s.lost then !Live(s, k) && !gone else Live(s, k) <==> !gone
  }

  ghost predicate RecordsOk(ran: seq<Key>, running: set<Key>, recorded: map<Key, Answer>, nextBuf: Buffer) {
    && nextBuf > 0
    && (forall k :: k in running ==> k in ran && k.nonce != 0 && k !in recorded)
    && (forall k :: k in recorded ==> k in ran && 0 < recorded[k].buf < nextBuf)
    && (forall k, l :: k in recorded && l in recorded && recorded[k].buf == recorded[l].buf ==> k == l)
  }

  ghost predicate FreedOk(freed: seq<Buffer>, nextBuf: Buffer) {
    NoDup(freed) && forall i :: 0 <= i < |freed| ==> freed[i] < nextBuf
  }

  ghost predicate Inv(s: State) {
    && (forall c :: c in s.clients ==> ClientOk(s.clients[c]))
    && NetOk(s.net)
    && NoRepeat(s.ran)
    && RecordsOk(s.ran, s.running, s.recorded, s.nextBuf)
    && FreedOk(s.freed, s.nextBuf)
    && (forall n: nat :: WindowOk(ListOf(s.windows, n), n, s.running, s.recorded))
    && (!s.stopped ==> forall n: nat :: n != 0 ==> Remembers(ListOf(s.windows, n), n, s.ran))
    && (forall k :: k in s.recorded ==> Placed(s, k))
    && (forall k :: k in s.lost ==> k in s.recorded)
    && (s.stopped ==> s.windows == map[] && s.running == {})
    && 0 !in s.windows
  }

  // ----- buffers of a window -----

  lemma {:induction false} BuffersIn(w: seq<Entry>, b: Buffer)
    ensures b in Buffers(w) <==> b != NULL && exists i :: 0 <= i < |w| && w[i].buf == b
    decreases |w|
  {
    if w != [] {
      BuffersIn(w[1..], b);
      if b != NULL && exists i :: 0 <= i < |w| && w[i].buf == b {
        var i :| 0 <= i < |w| && w[i].buf == b;
        assert i > 0 ==> w[1..][i - 1].buf == b;
      }
    }
  }

  lemma NoDupConcat(a: seq<Buffer>, b: seq<Buffer>)
    requires NoDup(a) && NoDup(b) && forall x :: x in a ==> x !in b
    ensures NoDup(a + b)
  {
    var c := a + b;
    forall i, j | 0 <= i < j < |c| ensures c[i] != c[j] {
      if i < |a| <= j {
        assert c[i] in a && c[j] in b;
      }
    }
  }

  lemma {:induction false} BuffersNoDup(w: seq<Entry>)
    requires forall i, j :: 0 <= i < j < |w| && w[i].buf != NULL ==> w[i].buf != w[j].buf
    ensures NoDup(Buffers(w))
    decreases |w|
  {
    if w != [] {
      BuffersNoDup(w[1..]);
      BuffersIn(w[1..], w[0].buf);
      NoDupConcat(if w[0].buf == NULL then [] else [w[0].buf], Buffers(w[1..]));
    }
  }

  /** The buffers a window owns are distinct and are the recorded ones of its entries. */
  lemma OwnedBuffers(w: seq<Entry>, n: nat, running: set<Key>, recorded: map<Key, Answer>,
                     ran: seq<Key>, nextBuf: Buffer, m: nat)
    requires WindowOk(w, n, running, recorded) && RecordsOk(ran, running, recorded, nextBuf) && m <= |w|
    ensures NoDup(Buffers(w[..m]))
    ensures forall b :: b in Buffers(w[..m]) ==> b < nextBuf
    ensures forall k :: k in recorded ==>
              (recorded[k].buf in Buffers(w[..m]) <==> k.nonce == n && Has(w[..m], k.xid))
  {
    var v := w[..m];
    forall i | 0 <= i < |v|
      ensures v[i].buf != NULL ==> Key(n, v[i].xid) in recorded && recorded[Key(n, v[i].xid)].buf == v[i].buf
    {
      assert EntryOk(w[i], n, running, recorded);
    }
    BuffersNoDup(v);
    forall b | b in Buffers(v) ensures b < nextBuf {
      BuffersIn(v, b);
      var i :| 0 <= i < |v| && v[i].buf == b;
    }
    forall k | k in recorded ensures recorded[k].buf in Buffers(v) <==> k.nonce == n && Has(v, k.xid) {
      BuffersIn(v, recorded[k].buf);
      if k.nonce == n && Has(v, k.xid) {
        var i :| 0 <= i < |v| && v[i].xid == k.xid;
        assert EntryOk(w[i], n, running, recorded);
        assert v[i].buf == recorded[k].buf;
      }
    }
  }

  lemma SplitHas(w: seq<Entry>, d: nat, x: nat)
    requires Sorted(w) && d <= |w|
    ensures Has(w, x) <==> Has(w[..d], x) || Has(w[d..], x)
    ensures !(Has(w[..d], x) && Has(w[d..], x))
  {
    if Has(w, x) {
      var i :| 0 <= i < |w| && w[i].xid == x;
      assert if i < d then w[..d][i] == w[i] else w[d..][i - d] == w[i];
    }
    if Has(w[..d], x) {
      var i :| 0 <= i < d && w[..d][i].xid == x;
      assert w[i].xid == x;
    }
    if Has(w[d..], x) {
      var i :| 0 <= i < |w| - d && w[d..][i].xid == x;
      assert w[d + i].xid == x;
    }
  }

  /** A request keeps exactly the entries it does not drop. */
  lemma DroppedGone(w: seq<Entry>, xid: nat, rep: nat, x: nat)
    requires Sorted(w) && (Check(w, xid) == NEW ==> x != xid)
    ensures Has(Checked(w, xid, rep), x) <==> Has(w, x) && !Has(w[..Dropped(w, rep)], x)
  {
    SplitHas(w, Dropped(w, rep), x);
    InsertedHas(Pruned(w, rep), xid);
  }

  lemma CheckedEntry(w: seq<Entry>, xid: nat, rep: nat, e: Entry)
    requires e in Checked(w, xid, rep)
    ensures e in w || (Check(w, xid) == NEW && e == Entry(xid, false, NULL, 0))
  {
    var d := Dropped(w, rep);
    InsertedEntries(w[d..], xid, e);
    assert w == w[..d] + w[d..];
  }

  // ----- every step keeps the invariant -----

  lemma CallInv(s: State, c: nat, srvNonce: nat)
    requires Inv(s) && Enabled(s, Call(c, srvNonce))
    ensures Inv(Called(s, c, srvNonce))
  {
    var cl := s.clients[c];
    assert ClientOk(cl);
    var t := Called(s, c, srvNonce);
    assert cl.window[0] == 0 || cl.window[0] in cl.reported;
    forall k | k in t.recorded ensures Placed(t, k) {
      assert Placed(s, k);
    }
  }

  lemma ReportInv(s: State, c: nat, x: nat)
    requires Inv(s) && Enabled(s, Report(c, x))
    ensures Inv(Reported(s, c, x))
  {
    assert ClientOk(s.clients[c]);
    XidWindow.UpdatedIsWindow(s.clients[c].window, x, s.clients[c].reported);
    var t := Reported(s, c, x);
    forall k | k in t.recorded ensures Placed(t, k) {
      assert Placed(s, k);
    }
  }

  lemma LookedWindow(w: seq<Entry>, n: nat, xid: nat, rep: nat, running: set<Key>, recorded: map<Key, Answer>)
    requires WindowOk(w, n, running, recorded)
    ensures WindowOk(Checked(w, xid, rep), n,
                     if Check(w, xid) == NEW then running + {Key(n, xid)} else running, recorded)
  {
    var v := Checked(w, xid, rep);
    var now := if Check(w, xid) == NEW then running + {Key(n, xid)} else running;
    CheckedSorted(w, xid, rep);
    forall i | 0 <= i < |v| ensures EntryOk(v[i], n, now, recorded) {
      CheckedEntry(w, xid, rep, v[i]);
    }
  }

  /** The heart of at-most-once: a request that is taken for new never ran, and is remembered from now on. */
  lemma LookedRemembers(w: seq<Entry>, n: nat, xid: nat, rep: nat, ran: seq<Key>)
    requires Sorted(w) && Remembers(w, n, ran) && rep < xid
    ensures Check(w, xid) == NEW ==> Key(n, xid) !in ran
    ensures Remembers(Checked(w, xid, rep), n, if Check(w, xid) == NEW then ran + [Key(n, xid)] else ran)
  {
    NewIsFresh(w, xid);
    CheckedSorted(w, xid, rep);
    CheckedKeeps(w, xid, rep);
    if Check(w, xid) == NEW {
      FreshRefused(w, xid);
    }
  }

  lemma LookedPlaced(s: State, r: Request, k: Key)
    requires Inv(s) && !s.stopped && r in s.net && r.nonce != 0 && k in s.recorded
    ensures Placed(Looked(s, r), k)
  {
    var n, w := r.nonce, ListOf(s.windows, r.nonce);
    var d := Dropped(w, r.rep);
    assert Placed(s, k) && WindowOk(w, n, s.running, s.recorded) && Remembers(w, n, s.ran);
    OwnedBuffers(w, n, s.running, s.recorded, s.ran, s.nextBuf, d);
    LookedRemembers(w, n, r.xid, r.rep, s.ran);
    if k.nonce == n {
      DroppedGone(w, r.xid, r.rep, k.xid);
      SplitHas(w, d, k.xid);
    }
  }

  lemma LookedFreed(s: State, r: Request)
    requires Inv(s) && r.nonce != 0
    ensures FreedOk(Looked(s, r).freed, s.nextBuf)
  {
    var n, w := r.nonce, ListOf(s.windows, r.nonce);
    var d := Dropped(w, r.rep);
    assert WindowOk(w, n, s.running, s.recorded);
    OwnedBuffers(w, n, s.running, s.recorded, s.ran, s.nextBuf, d);
    var gone := Buffers(w[..d]);
    forall b | b in gone ensures b !in s.freed {
      BuffersIn(w[..d], b);
      var i :| 0 <= i < d && w[..d][i].buf == b;
      assert EntryOk(w[i], n, s.running, s.recorded);
      assert Placed(s, Key(n, w[i].xid));
      assert Live(s, Key(n, w[i].xid));
    }
    NoDupConcat(s.freed, gone);
    forall i | 0 <= i < |s.freed + gone| ensures (s.freed + gone)[i] < s.nextBuf {
      assert i >= |s.freed| ==> (s.freed + gone)[i] in gone;
    }
  }

  lemma DispatchInv(s: State, r: Request)
    requires Inv(s) && Enabled(s, Dispatch(r))
    ensures Inv(Dispatched(s, r))
  {
    var t := Dispatched(s, r);
    if Response(s, r) == OldServer {
    } else if r.nonce == 0 {
      UncheckedInv(s, r);
    } else {
      CheckedInv(s, r);
    }
  }

  lemma UncheckedInv(s: State, r: Request)
    requires Inv(s) && Enabled(s, Dispatch(r)) && r.nonce == 0
    ensures Inv(s.(ran := s.ran + [Key(0, r.xid)]))
  {
    var t := s.(ran := s.ran + [Key(0, r.xid)]);
    forall n: nat | n != 0 ensures Remembers(ListOf(t.windows, n), n, t.ran) {
      assert Remembers(ListOf(s.windows, n), n, s.ran);
    }
    forall k | k in t.recorded ensures Placed(t, k) {
      assert Placed(s, k);
    }
  }

  lemma RanInv(ran: seq<Key>, running: set<Key>, recorded: map<Key, Answer>, nextBuf: Buffer, k: Key)
    requires NoRepeat(ran) && RecordsOk(ran, running, recorded, nextBuf) && k !in ran && k.nonce != 0
    ensures NoRepeat(ran + [k]) && RecordsOk(ran + [k], running + {k}, recorded, nextBuf)
  {
  }

  lemma CheckedInv(s: State, r: Request)
    requires Inv(s) && Enabled(s, Dispatch(r)) && r.nonce != 0 && Response(s, r) != OldServer
    ensures Inv(Dispatched(s, r))
  {
    var t := Dispatched(s, r);
    var w := ListOf(s.windows, r.nonce);
    assert Response(s, r) == Runs <==> Check(w, r.xid) == NEW;
    assert Remembers(w, r.nonce, s.ran);
    LookedRemembers(w, r.nonce, r.xid, r.rep, s.ran);
    LookedFreed(s, r);
    if Response(s, r) == Runs {
      RanInv(s.ran, s.running, s.recorded, s.nextBuf, Key(r.nonce, r.xid));
    }
    CheckedWindows(s, r);
    forall k | k in t.recorded ensures Placed(t, k) {
      LookedPlaced(s, r, k);
      assert Live(t, k) <==> Live(Looked(s, r), k);
    }
  }

  lemma CheckedWindows(s: State, r: Request)
    requires Inv(s) && !s.stopped && r in s.net && r.nonce != 0 && Response(s, r) != OldServer
    ensures var t := Dispatched(s, r);
            && (forall n: nat :: WindowOk(ListOf(t.windows, n), n, t.running, t.recorded))
            && (forall n: nat :: n != 0 ==> Remembers(ListOf(t.windows, n), n, t.ran))
  {
    var t := Dispatched(s, r);
    var w := ListOf(s.windows, r.nonce);
    forall n: nat ensures WindowOk(ListOf(t.windows, n), n, t.running, t.recorded) {
      assert WindowOk(ListOf(s.windows, n), n, s.running, s.recorded);
      LookedWindow(w, r.nonce, r.xid, r.rep, s.running, s.recorded);
    }
    forall n: nat | n != 0 ensures Remembers(ListOf(t.windows, n), n, t.ran) {
      assert Remembers(ListOf(s.windows, n), n, s.ran);
      if n == r.nonce {
        LookedRemembers(w, n, r.xid, r.rep, s.ran);
      } else {
        OtherRemembers(ListOf(s.windows, n), n, s.ran, Key(r.nonce, r.xid));
      }
    }
  }

  lemma OtherRemembers(w: seq<Entry>, n: nat, ran: seq<Key>, k: Key)
    requires Remembers(w, n, ran) && k.nonce != n
    ensures Remembers(w, n, ran + [k])
  {
  }

  lemma FinishInv(s: State, k: Key, sz: nat)
    requires Inv(s) && Enabled(s, Finish(k, sz))
    ensures Inv(Finished(s, k, sz))
  {
    var t := Finished(s, k, sz);
    forall n: nat ensures WindowOk(ListOf(t.windows, n), n, t.running, t.recorded) {
      FinishedWindow(s, k, sz, n);
    }
    forall n: nat | n != 0 ensures Remembers(ListOf(t.windows, n), n, t.ran) {
      assert Remembers(ListOf(s.windows, n), n, s.ran);
      FinishedHas(s, k, sz, n);
    }
    forall l | l in t.recorded ensures Placed(t, l) {
      FinishedHas(s, k, sz, l.nonce);
      assert Live(t, l) <==> Live(s, l);
      assert l != k ==> Placed(s, l);
    }
  }

  lemma FinishedHas(s: State, k: Key, sz: nat, n: nat)
    ensures var w, v := ListOf(s.windows, n), ListOf(Finished(s, k, sz).windows, n);
            && (forall x: nat :: Has(v, x) <==> Has(w, x))
            && (w == [] <==> v == [])
            && (w != [] ==> v[0].xid == w[0].xid)
  {
    RecordedHas(ListOf(s.windows, k.nonce), k.xid, s.nextBuf, sz);
  }

  lemma RecordedHas(w: seq<Entry>, xid: nat, b: Buffer, sz: nat)
    ensures forall x: nat :: Has(ReplyWindow.Recorded(w, xid, b, sz), x) <==> Has(w, x)
    ensures w != [] ==> ReplyWindow.Recorded(w, xid, b, sz)[0].xid == w[0].xid
  {
    var v := ReplyWindow.Recorded(w, xid, b, sz);
    assert forall i :: 0 <= i < |w| ==> v[i].xid == w[i].xid;
    forall x: nat ensures Has(v, x) <==> Has(w, x) {
      if Has(v, x) {
        var i :| 0 <= i < |v| && v[i].xid == x;
        assert w[i].xid == x;
      }
      if Has(w, x) {
        var i :| 0 <= i < |w| && w[i].xid == x;
        assert v[i].xid == x;
      }
    }
  }

  lemma FinishedWindow(s: State, k: Key, sz: nat, n: nat)
    requires Inv(s) && k in s.running
    ensures WindowOk(ListOf(Finished(s, k, sz).windows, n), n, s.running - {k}, s.recorded[k := Answer(s.nextBuf, sz)])
  {
    var w := ListOf(s.windows, n);
    assert WindowOk(w, n, s.running, s.recorded);
    if n == k.nonce {
      ReplySet(w, k, s.running, s.recorded, s.nextBuf, sz);
    } else {
      OtherWindow(w, n, k, s.running, s.recorded, s.nextBuf, sz);
    }
  }

  lemma ReplySet(w: seq<Entry>, k: Key, running: set<Key>, recorded: map<Key, Answer>, b: Buffer, sz: nat)
    requires WindowOk(w, k.nonce, running, recorded) && k !in recorded
    ensures WindowOk(ReplyWindow.Recorded(w, k.xid, b, sz), k.nonce, running - {k}, recorded[k := Answer(b, sz)])
  {
    var v := ReplyWindow.Recorded(w, k.xid, b, sz);
    forall i | 0 <= i < |v| ensures EntryOk(v[i], k.nonce, running - {k}, recorded[k := Answer(b, sz)]) {
      assert EntryOk(w[i], k.nonce, running, recorded);
    }
  }

  lemma OtherWindow(w: seq<Entry>, n: nat, k: Key, running: set<Key>, recorded: map<Key, Answer>, b: Buffer, sz: nat)
    requires WindowOk(w, n, running, recorded) && n != k.nonce
    ensures WindowOk(w, n, running - {k}, recorded[k := Answer(b, sz)])
  {
    forall i | 0 <= i < |w| ensures EntryOk(w[i], n, running - {k}, recorded[k := Answer(b, sz)]) {
      assert EntryOk(w[i], n, running, recorded);
    }
  }

  /** The same for all windows together. */
  lemma {:induction false} AllOwned(s: State, order: seq<nat>)
    requires forall n: nat :: WindowOk(ListOf(s.windows, n), n, s.running, s.recorded)
    requires RecordsOk(s.ran, s.running, s.recorded, s.nextBuf)
    requires forall i, j :: 0 <= i < j < |order| ==> order[i] != order[j]
    ensures NoDup(AllBuffers(s.windows, order))
    ensures forall b :: b in AllBuffers(s.windows, order) ==>
              b < s.nextBuf && exists k :: k in s.recorded && s.recorded[k].buf == b
    ensures forall k :: k in s.recorded ==>
              (s.recorded[k].buf in AllBuffers(s.windows, order) <==> k.nonce in order && Live(s, k))
    decreases |order|
  {
    if order != [] {
      var n, rest := order[0], order[1..];
      var w := ListOf(s.windows, n);
      assert w[..|w|] == w;
      assert WindowOk(w, n, s.running, s.recorded);
      OwnedBuffers(w, n, s.running, s.recorded, s.ran, s.nextBuf, |w|);
      AllOwned(s, rest);
      assert order == [n] + rest && n !in rest;
      forall b | b in Buffers(w)
        ensures b !in AllBuffers(s.windows, rest) && exists k :: k in s.recorded && s.recorded[k].buf == b
      {
        BuffersIn(w, b);
        var i :| 0 <= i < |w| && w[i].buf == b;
        assert EntryOk(w[i], n, s.running, s.recorded);
        assert s.recorded[Key(n, w[i].xid)].buf == b;
      }
      NoDupConcat(Buffers(w), AllBuffers(s.windows, rest));
    }
  }

  lemma StoppedFreed(s: State, order: seq<nat>)
    requires Inv(s) && Enabled(s, Shutdown(order))
    ensures FreedOk(Stopped(s, order).freed, s.nextBuf)
  {
    var gone := AllBuffers(s.windows, order);
    var all := s.freed + gone;
    AllOwned(s, order);
    forall b | b in gone ensures b !in s.freed {
      var k :| k in s.recorded && s.recorded[k].buf == b;
      assert Placed(s, k);
    }
    NoDupConcat(s.freed, gone);
    forall i | 0 <= i < |all| ensures all[i] < s.nextBuf {
      assert i >= |s.freed| ==> all[i] in gone;
    }
  }

  lemma ShutdownInv(s: State, order: seq<nat>)
    requires Inv(s) && Enabled(s, Shutdown(order))
    ensures Inv(Stopped(s, order))
  {
    var t := Stopped(s, order);
    StoppedFreed(s, order);
    AllOwned(s, order);
    forall k | k in s.recorded ensures Placed(t, k) {
      assert Placed(s, k);
      assert Live(s, k) ==> k.nonce in s.windows;
    }
  }

  lemma StepInv(s: State, step: Step)
    requires Inv(s) && Enabled(s, step)
    ensures Inv(Apply(s, step))
  {
    match step
    case Call(c, srvNonce) => CallInv(s, c, srvNonce);
    case Report(c, x) => ReportInv(s, c, x);
    case Dispatch(r) => DispatchInv(s, r);
    case Finish(k, sz) => FinishInv(s, k, sz);
    case Shutdown(order) => ShutdownInv(s, order);
  }

  lemma {:induction false} RunInv(s: State, run: seq<Step>)
    requires Inv(s) && IsRun(s, run)
    ensures Inv(Exec(s, run))
    decreases |run|
  {
    if run != [] {
      StepInv(s, run[0]);
      RunInv(Apply(s, run[0]), run[1..]);
    }
  }

  lemma InitInv(s: State)
    requires Init(s)
    ensures Inv(s)
  {
  }

  // ----- main results -----

  /** No handler runs twice for one (nonzero nonce, xid), in any run. */
  lemma HandlerRunsAtMostOnce(s: State, run: seq<Step>, i: nat, j: nat)
    requires Init(s) && IsRun(s, run)
    requires i < j < |Exec(s, run).ran| && Exec(s, run).ran[i].nonce != 0
    ensures Exec(s, run).ran[i] != Exec(s, run).ran[j]
  {
    InitInv(s);
    RunInv(s, run);
  }

  /** A request always acknowledges less than its own xid. */
  lemma RequestsAcknowledgeLess(s: State, run: seq<Step>, r: Request)
    requires Init(s) && IsRun(s, run) && r in Exec(s, run).net
    ensures r.rep < r.xid
  {
    InitInv(s);
    RunInv(s, run);
  }

  /** The window of a client that ran something is sorted, not empty, and holds or has passed all that ran. */
  lemma WindowRemembersRuns(s: State, run: seq<Step>, k: Key)
    requires Init(s) && IsRun(s, run) && !Exec(s, run).stopped && k.nonce != 0 && k in Exec(s, run).ran
    ensures var w := ListOf(Exec(s, run).windows, k.nonce);
            Sorted(w) && w != [] && (Has(w, k.xid) || k.xid < w[0].xid)
  {
    InitInv(s);
    RunInv(s, run);
    var t := Exec(s, run);
    assert WindowOk(ListOf(t.windows, k.nonce), k.nonce, t.running, t.recorded);
    assert Remembers(ListOf(t.windows, k.nonce), k.nonce, t.ran);
  }

  /** A resent reply is the one recorded for that request, and neither an earlier call nor this one freed it. */
  lemma ResendsRecordedReply(s: State, run: seq<Step>, r: Request)
    requires Init(s) && IsRun(s, run) && Enabled(Exec(s, run), Dispatch(r)) && Response(Exec(s, run), r).Resend?
    ensures var t, k := Exec(s, run), Key(r.nonce, r.xid);
            && k in t.recorded && Response(t, r) == Resend(t.recorded[k].buf, t.recorded[k].sz)
            && t.recorded[k].buf !in Dispatched(t, r).freed
  {
    InitInv(s);
    RunInv(s, run);
    var t, k := Exec(s, run), Key(r.nonce, r.xid);
    var w := ListOf(t.windows, r.nonce);
    assert WindowOk(w, r.nonce, t.running, t.recorded);
    var i := IndexOf(w, r.xid);
    assert EntryOk(w[i], r.nonce, t.running, t.recorded);
    DispatchInv(t, r);
    assert Placed(t, k) && Placed(Dispatched(t, r), k);
    DroppedExactly(w, r.rep);
    DroppedGone(w, r.xid, r.rep, r.xid);
    SplitHas(w, Dropped(w, r.rep), r.xid);
    assert Has(w, r.xid);
    assert Live(Dispatched(t, r), k);
  }

  /** A request for another instance of the server is answered as such and touches nothing, in every state. */
  lemma OldServerUntouched(s: State, r: Request)
    ensures Response(s, r) == OldServer <==> r.srvNonce != 0 && r.srvNonce != s.srvNonce
    ensures Response(s, r) == OldServer ==> Dispatched(s, r) == s
  {
  }

  /** Which answer a request gets: it depends only on its nonces, the window, the handlers and the records. */
  lemma ResponseExact(s: State, run: seq<Step>, r: Request)
    requires Init(s) && IsRun(s, run) && Enabled(Exec(s, run), Dispatch(r))
    ensures var t, k := Exec(s, run), Key(r.nonce, r.xid);
            var w := ListOf(t.windows, r.nonce);
            if r.srvNonce != 0 && r.srvNonce != t.srvNonce then Response(t, r) == OldServer && Dispatched(t, r) == t
            else if r.nonce == 0 then
              Response(t, r) == Runs && Dispatched(t, r) == t.(ran := t.ran + [k])
            else
              match Response(t, r)
              case OldServer => false
              case Runs => k !in t.ran && (w != [] ==> w[0].xid < r.xid)
              case Silent => Has(w, r.xid) && k in t.running && k !in t.recorded
              case Resend(b, sz) =>
                Has(w, r.xid) && k !in t.running && k in t.recorded && t.recorded[k] == Answer(b, sz)
              case Refused => w != [] && r.xid < w[0].xid
  {
    if r.nonce != 0 && (r.srvNonce == 0 || r.srvNonce == Exec(s, run).srvNonce) {
      ResponseOfWindow(s, run, r);
    }
  }

  lemma ResponseOfWindow(s: State, run: seq<Step>, r: Request)
    requires Init(s) && IsRun(s, run) && Enabled(Exec(s, run), Dispatch(r))
    requires r.nonce != 0 && (r.srvNonce == 0 || r.srvNonce == Exec(s, run).srvNonce)
    ensures var t, k := Exec(s, run), Key(r.nonce, r.xid);
            var w := ListOf(t.windows, r.nonce);
            match Response(t, r)
            case OldServer => false
            case Runs => k !in t.ran && (w != [] ==> w[0].xid < r.xid)
            case Silent => Has(w, r.xid) && k in t.running && k !in t.recorded
            case Resend(b, sz) => Has(w, r.xid) && k !in t.running && k in t.recorded && t.recorded[k] == Answer(b, sz)
            case Refused => w != [] && r.xid < w[0].xid
  {
    InitInv(s);
    RunInv(s, run);
    var t := Exec(s, run);
    var w := ListOf(t.windows, r.nonce);
    assert WindowOk(w, r.nonce, t.running, t.recorded) && Remembers(w, r.nonce, t.ran);
    LookedRemembers(w, r.nonce, r.xid, r.rep, t.ran);
    var i := IndexOf(w, r.xid);
    if i >= 0 {
      assert EntryOk(w[i], r.nonce, t.running, t.recorded) && Has(w, r.xid);
    } else {
      FreshRefused(w, r.xid);
      assert w != [] ==> w[0].xid != r.xid;
    }
  }

  /** A finished handler has one recorded reply, and a second `add_reply` for it is never made. */
  lemma RecordedOnce(s: State, run: seq<Step>, k: Key, sz: nat)
    requires Init(s) && IsRun(s, run) && Enabled(Exec(s, run), Finish(k, sz))
    ensures k in Exec(s, run).ran && k !in Exec(s, run).recorded
  {
    InitInv(s);
    RunInv(s, run);
  }

  /** No buffer is freed twice; once the server has stopped, each recorded one was freed, or was lost at `add_reply`. */
  lemma BuffersFreedOnce(s: State, run: seq<Step>)
    requires Init(s) && IsRun(s, run)
    ensures var t := Exec(s, run);
            && NoDup(t.freed)
            && (t.stopped ==> forall k :: k in t.recorded ==> (t.recorded[k].buf in t.freed <==> k !in t.lost))
  {
    InitInv(s);
    RunInv(s, run);
    var t := Exec(s, run);
    if t.stopped {
      forall k | k in t.recorded ensures t.recorded[k].buf in t.freed <==> k !in t.lost {
        assert Placed(t, k);
      }
    }
  }

  /** Requests without a nonce have no such protection. */
  lemma ZeroNonceRunsTwice()
    ensures exists s, run :: Init(s) && IsRun(s, run) && Exec(s, run).ran == [Key(0, 1), Key(0, 1)]
  {
    var s := State(map[7 := Client(0, 1, [0], {})], {}, 5, map[], false, [], {}, map[], {}, [], 1);
    var r := Request(0, 0, 1, 0);
    var s1 := Called(s, 7, 0);
    var s2 := Dispatched(s1, r);
    FirstStep(s2, Dispatch(r), []);
    FirstStep(s1, Dispatch(r), [Dispatch(r)]);
    FirstStep(s, Call(7, 0), [Dispatch(r)] + [Dispatch(r)]);
  }

  lemma FirstStep(s: State, step: Step, rest: seq<Step>)
    requires Enabled(s, step) && IsRun(Apply(s, step), rest)
    ensures IsRun(s, [step] + rest) && Exec(s, [step] + rest) == Exec(Apply(s, step), rest)
  {
    assert ([step] + rest)[1..] == rest;
  }
}
