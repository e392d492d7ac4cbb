/** The caching lock server: who holds each lock, who waits, and the queues of outgoing RPCs. */
module ServerCache {
  import opened LockTypes

  datatype Mode = OPEN | LOCKED

  /** `lock_status`: the server's record of one lock. */
  datatype LockStatus = LockStatus(
    status: Mode,
    waiting: seq<ClientId>,
    lockClient: ClientId,
    revokeMap: map<ClientId, bool>)

  /**
   * The server's state. `retrySent` and `revokeSent` are the program counters of the two
   * sender threads: true between the return of the RPC for the queue's front entry and the
   * pop of that entry. `broken` is set when the status mutex is left locked for ever, or an
   * empty waiting list is popped.
   */
  datatype Server = Server(
    locks: map<LockId, LockStatus>,
    retryList: seq<Msg>,
    revokeList: seq<Msg>,
    retrySent: bool,
    revokeSent: bool,
    broken: bool)

  const NO_CLIENT := ClientId("")

  const Unknown := LockStatus(OPEN, [], NO_CLIENT, map[])

  const Fresh := Server(map[], [], [], false, false, false)

  function Look(sv: Server, lid: LockId): LockStatus {
    if lid in sv.locks then sv.locks[lid] else Unknown
  }

  /** `revoke_map[c]`, which reads false for a missing key. */
  predicate Revoked(k: LockStatus, c: ClientId) {
    c in k.revokeMap && k.revokeMap[c]
  }

  /** The entries of a queue whose RPC has not yet reached the client. */
  function Undelivered(q: seq<Msg>, sent: bool): seq<Msg> {
    if sent && q != [] then q[1..] else q
  }

  function Grant(k: LockStatus, id: ClientId): LockStatus {
    LockStatus(LOCKED, k.waiting, id, k.revokeMap[id := k.waiting != []])
  }

  function Refuse(k: LockStatus, id: ClientId): LockStatus {
    k.(waiting := k.waiting + [id], revokeMap := k.revokeMap[k.lockClient := true])
  }

  function AcquireReply(sv: Server, lid: LockId): Reply {
    if Look(sv, lid).status == OPEN then OK else RETRY
  }

  function Acquired(sv: Server, lid: LockId, id: ClientId): Server {
    var k := Look(sv, lid);
    if k.status == OPEN then
      sv.(locks := sv.locks[lid := Grant(k, id)],
          revokeList := if k.waiting != [] then sv.revokeList + [Msg(lid, id)] else sv.revokeList)
    else
      sv.(locks := sv.locks[lid := Refuse(k, id)],
          revokeList := if Revoked(k, k.lockClient) then sv.revokeList
                        else sv.revokeList + [Msg(lid, k.lockClient)])
  }

  /** What the tests at the head of release see; they run without the status mutex. */
  datatype Test = NotHeld | NoWaiter | HasWaiters

  function ReleaseTest(sv: Server, lid: LockId): Test {
    if Look(sv, lid).status == OPEN then NotHeld
    else if Look(sv, lid).waiting == [] then NoWaiter
    else HasWaiters
  }

  /** The locked half of release, on the branch that the earlier test chose. */
  function Released(sv: Server, lid: LockId, id: ClientId, test: Test): Server {
    var k := Look(sv, lid);
    var freed := k.(status := OPEN, lockClient := NO_CLIENT, revokeMap := k.revokeMap[id := false]);
    match test
    case NotHeld => sv
    case NoWaiter => sv.(locks := sv.locks[lid := freed], broken := true)
    case HasWaiters =>
      if k.waiting == [] then sv.(locks := sv.locks[lid := freed], broken := true)
      else sv.(locks := sv.locks[lid := freed.(waiting := k.waiting[1..])],
               retryList := sv.retryList + [Msg(lid, k.waiting[0])])
  }

  /** The two halves with nothing in between, on any server: the lock is free, and its first waiter gets a retry. */
  lemma ReleaseAlone(sv: Server, lid: LockId, id: ClientId)
    ensures var k, sv' := Look(sv, lid), Released(sv, lid, id, ReleaseTest(sv, lid));
            && Look(sv', lid).status == OPEN && sv'.revokeList == sv.revokeList
            && (forall m :: m != lid ==> Look(sv', m) == Look(sv, m))
            && (if k.status == OPEN then sv' == sv
                else if k.waiting == [] then sv'.broken && sv'.retryList == sv.retryList && Look(sv', lid).waiting == []
                else
                  && sv'.broken == sv.broken && [k.waiting[0]] + Look(sv', lid).waiting == k.waiting
                  && sv'.retryList == sv.retryList + [Msg(lid, k.waiting[0])])
  {
  }

  /** A release breaks the server exactly if the test saw no waiter or the locked half finds none. */
  lemma ReleaseBreaksIff(sv: Server, lid: LockId, id: ClientId, test: Test)
    ensures Released(sv, lid, id, test).broken <==>
            sv.broken || test == NoWaiter || (test == HasWaiters && Look(sv, lid).waiting == [])
    ensures test == NotHeld ==> Released(sv, lid, id, test) == sv
    ensures var k := Look(Released(sv, lid, id, test), lid);
            test != NotHeld ==> k.status == OPEN && k.lockClient == NO_CLIENT && !Revoked(k, id)
  {
  }

  function AllAcquired(sv: Server, lid: LockId, cs: seq<ClientId>): Server
    decreases |cs|
  {
    if cs == [] then sv else AllAcquired(Acquired(sv, lid, cs[0]), lid, cs[1..])
  }

  lemma {:induction false} RefusedInOrder(sv: Server, lid: LockId, cs: seq<ClientId>)
    requires Look(sv, lid).status == LOCKED
    ensures var sv' := AllAcquired(sv, lid, cs);
            && Look(sv', lid).status == LOCKED && Look(sv', lid).waiting == Look(sv, lid).waiting + cs
            && sv'.broken == sv.broken && sv'.retryList == sv.retryList
    decreases |cs|
  {
    if cs != [] {
      RefusedInOrder(Acquired(sv, lid, cs[0]), lid, cs[1..]);
      FirstAndRest(Look(sv, lid).waiting, cs);
    }
  }

  lemma FirstAndRest(before: seq<ClientId>, cs: seq<ClientId>)
    requires cs != []
    ensures (before + [cs[0]]) + cs[1..] == before + cs
  {
  }

  /**
   * Clients that ask for a held lock between the two halves of its release wait behind the others. If
   * there were no others when the first half looked, nobody is told that the lock is free.
   */
  lemma LateWaiters(sv: Server, lid: LockId, id: ClientId, cs: seq<ClientId>)
    requires Look(sv, lid).status == LOCKED
    ensures var before := Look(sv, lid).waiting;
            var sv' := Released(AllAcquired(sv, lid, cs), lid, id, ReleaseTest(sv, lid));
            && Look(sv', lid).status == OPEN
            && (if before == [] then sv'.broken && sv'.retryList == sv.retryList && Look(sv', lid).waiting == cs
                else
                  && sv'.broken == sv.broken && sv'.retryList == sv.retryList + [Msg(lid, before[0])]
                  && Look(sv', lid).waiting == before[1..] + cs)
  {
    RefusedInOrder(sv, lid, cs);
    var before := Look(sv, lid).waiting;
    assert before != [] ==> (before + cs)[0] == before[0] && (before + cs)[1..] == before[1..] + cs;
    assert before == [] ==> before + cs == cs;
  }

  class LockServerCache {
    var lockStatusMap: map<LockId, LockStatus>
    var retryList: seq<Msg>
    var revokeList: seq<Msg>
    ghost var retrySent: bool
    ghost var revokeSent: bool
    ghost var broken: bool

    ghost function State(): Server
      reads this
    {
      Server(lockStatusMap, retryList, revokeList, retrySent, revokeSent, broken)
    }

    constructor ()
      ensures State() == Fresh
    {
      lockStatusMap, retryList, revokeList := map[], [], [];
      retrySent, revokeSent, broken := false, false, false;
    }

    method Acquire(lid: LockId, id: ClientId) returns (ret: Reply)
      modifies this
      ensures State() == Acquired(old(State()), lid, id)
      ensures ret == AcquireReply(old(State()), lid)
    {
      if lid in lockStatusMap {
        var k := lockStatusMap[lid];
        if k.status == OPEN {
          ret := OK;
          k := k.(status := LOCKED, lockClient := id);
          if |k.waiting| != 0 {
            k := k.(revokeMap := k.revokeMap[id := true]);
            revokeList := revokeList + [Msg(lid, id)];
          } else {
            k := k.(revokeMap := k.revokeMap[id := false]);
          }
        } else {
          ret := RETRY;
          if !Revoked(k, k.lockClient) {
            revokeList := revokeList + [Msg(lid, k.lockClient)];
            k := k.(revokeMap := k.revokeMap[k.lockClient := true]);
          } else {
            assert k.revokeMap[k.lockClient := true] == k.revokeMap;
          }
          k := k.(waiting := k.waiting + [id]);
        }
        lockStatusMap := lockStatusMap[lid := k];
      } else {
        lockStatusMap := lockStatusMap[lid := LockStatus(LOCKED, [], id, map[id := false])];
        ret := OK;
      }
    }

    method TestRelease(lid: LockId) returns (test: Test)
      ensures test == ReleaseTest(State(), lid)
    {
      if lid in lockStatusMap && lockStatusMap[lid].status == LOCKED {
        test := if |lockStatusMap[lid].waiting| == 0 then NoWaiter else HasWaiters;
      } else {
        test := NotHeld;
      }
    }

    /** The locked half; popping a waiting list that has become empty is marked. */
    method CommitRelease(lid: LockId, id: ClientId, test: Test)
      modifies this
      ensures State() == Released(old(State()), lid, id, test)
    {
      if test == NotHeld {
        return;
      }
      var k := if lid in lockStatusMap then lockStatusMap[lid] else Unknown;
      k := k.(status := OPEN, lockClient := NO_CLIENT, revokeMap := k.revokeMap[id := false]);
      if test == NoWaiter || k.waiting == [] {
        broken := true;
      } else {
        var waitingClient := k.waiting[0];
        k := k.(waiting := k.waiting[1..]);
        retryList := retryList + [Msg(lid, waitingClient)];
      }
      lockStatusMap := lockStatusMap[lid := k];
    }
  }
}
