/** The caching lock client: the cached state of each lock and the releaser thread. */
module ClientCache {
  import opened LockTypes

  datatype LockSt = NONE | FREE | LOCKED | ACQUIRING | RELEASING

  /** `releaserOn` is `revokerThreadStatus`: the releaser thread runs a pass only while it is set. */
  datatype Client = Client(
    lockMap: map<LockId, LockSt>,
    retryMap: map<LockId, bool>,
    revokeList: seq<LockId>,
    releaserOn: bool)

  const Fresh := Client(map[], map[], [], false)

  function St(cl: Client, lid: LockId): LockSt {
    if lid in cl.lockMap then cl.lockMap[lid] else NONE
  }

  predicate RetryFlag(cl: Client, lid: LockId) {
    lid in cl.retryMap && cl.retryMap[lid]
  }

  function SetSt(cl: Client, lid: LockId, st: LockSt): Client {
    cl.(lockMap := cl.lockMap[lid := st])
  }

  /** First region of acquire: a lock not seen before is entered as NONE. */
  function Entered(cl: Client, lid: LockId): Client {
    if lid in cl.lockMap then cl
    else SetSt(cl, lid, NONE).(retryMap := cl.retryMap[lid := false])
  }

  /** The server's answer to the first call. */
  function Answered(cl: Client, lid: LockId, reply: Reply): Client {
    SetSt(cl, lid, if reply == OK then LOCKED else ACQUIRING)
  }

  /** The server's answer to a call made after a retry arrived. */
  function RetryAnswered(cl: Client, lid: LockId, reply: Reply): Client {
    Answered(cl, lid, reply).(retryMap := cl.retryMap[lid := false])
  }

  function Released(cl: Client, lid: LockId): Client {
    if lid in cl.revokeList then SetSt(cl, lid, RELEASING).(releaserOn := true)
    else SetSt(cl, lid, FREE)
  }

  function RevokeHandled(cl: Client, lid: LockId): Client {
    var listed := cl.(revokeList := cl.revokeList + [lid]);
    if St(cl, lid) == FREE then SetSt(listed, lid, RELEASING).(releaserOn := true) else listed
  }

  function RetryHandled(cl: Client, lid: LockId): Client {
    cl.(retryMap := cl.retryMap[lid := true])
  }

  /** The first lock of the list that is RELEASING, which is the one a releaser pass takes. */
  function FirstReleasing(cl: Client, list: seq<LockId>): Option<LockId> {
    if list == [] then None
    else if St(cl, list[0]) == RELEASING then Some(list[0])
    else FirstReleasing(cl, list[1..])
  }

  function RemoveFirst(list: seq<LockId>, lid: LockId): seq<LockId> {
    if list == [] then [] else if list[0] == lid then list[1..] else [list[0]] + RemoveFirst(list[1..], lid)
  }

  /** End of a releaser pass that gave `lid` back; the pass ends with the releaser switched off. */
  function PassDone(cl: Client, lid: LockId): Client {
    cl.(revokeList := RemoveFirst(cl.revokeList, lid), releaserOn := false)
  }

  lemma {:induction false} FirstReleasingFound(cl: Client, list: seq<LockId>)
    ensures match FirstReleasing(cl, list)
            case None => forall i :: 0 <= i < |list| ==> St(cl, list[i]) != RELEASING
            case Some(lid) => exists i: nat :: FirstAt(cl, list, i) && list[i] == lid
  {
    if list != [] {
      FirstReleasingFound(cl, list[1..]);
      if St(cl, list[0]) == RELEASING {
        assert FirstAt(cl, list, 0);
      } else if FirstReleasing(cl, list[1..]).Some? {
        var i: nat :| FirstAt(cl, list[1..], i) && list[1..][i] == FirstReleasing(cl, list[1..]).value;
        assert FirstAt(cl, list, i + 1);
      }
    }
  }

  /** The lock at `i` is RELEASING, and no lock before it is. */
  predicate FirstAt(cl: Client, list: seq<LockId>, i: nat) {
    i < |list| && St(cl, list[i]) == RELEASING && forall j :: 0 <= j < i ==> St(cl, list[j]) != RELEASING
  }

  lemma {:induction false} RemoveFirstCount(list: seq<LockId>, lid: LockId)
    ensures multiset(RemoveFirst(list, lid)) == multiset(list) - multiset{lid}
  {
    if list != [] {
      RemoveFirstCount(list[1..], lid);
      assert list == [list[0]] + list[1..];
      LessOne(multiset([list[0]]), multiset(list[1..]), lid);
    }
  }

  lemma LessOne(a: multiset<LockId>, b: multiset<LockId>, lid: LockId)
    ensures lid !in a ==> a + (b - multiset{lid}) == (a + b) - multiset{lid}
    ensures a == multiset{lid} ==> b == (a + b) - multiset{lid}
  {
  }

  lemma {:induction false} RemoveAt(list: seq<LockId>, i: nat)
    requires i < |list|
    requires forall j :: 0 <= j < i ==> list[j] != list[i]
    ensures RemoveFirst(list, list[i]) == list[..i] + list[i + 1..]
  {
    if i > 0 {
      RemoveAt(list[1..], i - 1);
      assert list[0] != list[i];
      assert [list[0]] + (list[1..][..i - 1] + list[1..][i..]) == list[..i] + list[i + 1..];
    }
  }

  /** What one turn of the acquire loop ends with. */
  datatype Turn = Acquired | Waiting | MustRetry

  class LockClientCache {
    var lockMap: map<LockId, LockSt>
    var retryMap: map<LockId, bool>
    var revokeList: seq<LockId>
    var revokerThreadStatus: bool

    function State(): Client
      reads this
    {
      Client(lockMap, retryMap, revokeList, revokerThreadStatus)
    }

    constructor ()
      ensures State() == Fresh
    {
      lockMap, retryMap, revokeList, revokerThreadStatus := map[], map[], [], false;
    }

    method EnterAcquire(lid: LockId)
      modifies this
      ensures State() == Entered(old(State()), lid)
    {
      if lid !in lockMap {
        lockMap := lockMap[lid := NONE];
        retryMap := retryMap[lid := false];
      }
    }

    /** One turn of the outer loop; `reply` is the server's answer, used only when the lock is NONE. */
    method AcquireTurn(lid: LockId, reply: Reply) returns (turn: Turn)
      requires lid in lockMap
      modifies this
      ensures State() == match St(old(State()), lid)
                         case NONE => Answered(old(State()), lid, reply)
                         case FREE => SetSt(old(State()), lid, LOCKED)
                         case _ => old(State())
      ensures turn == match St(old(State()), lid)
                      case NONE => if reply == OK then Acquired else MustRetry
                      case FREE => Acquired
                      case _ => Waiting
    {
      match lockMap[lid]
      case NONE =>
        if reply == OK {
          lockMap := lockMap[lid := LOCKED];
          turn := Acquired;
        } else {
          lockMap := lockMap[lid := ACQUIRING];
          turn := MustRetry;
        }
      case FREE =>
        lockMap := lockMap[lid := LOCKED];
        turn := Acquired;
      case _ =>
        turn := Waiting;
    }

    /** One turn of the inner loop, once the retry flag is set. */
    method RetryTurn(lid: LockId, reply: Reply) returns (turn: Turn)
      requires RetryFlag(State(), lid)
      modifies this
      ensures State() == RetryAnswered(old(State()), lid, reply)
      ensures turn == if reply == OK then Acquired else MustRetry
    {
      lockMap := lockMap[lid := ACQUIRING];
      if reply == OK {
        lockMap := lockMap[lid := LOCKED];
        retryMap := retryMap[lid := false];
        turn := Acquired;
      } else {
        retryMap := retryMap[lid := false];
        turn := MustRetry;
      }
    }

    method Release(lid: LockId)
      modifies this
      ensures State() == Released(old(State()), lid)
    {
      var found := false;
      var i := 0;
      while i < |revokeList| && !found
        invariant 0 <= i <= |revokeList|
        invariant found <==> lid in revokeList[..i]
        invariant State() == old(State())
        decreases |revokeList| - i, !found
      {
        if revokeList[i] == lid {
          found := true;
        }
        i := i + 1;
      }
      assert i == |revokeList| ==> revokeList[..i] == revokeList;
      if found {
        lockMap := lockMap[lid := RELEASING];
        revokerThreadStatus := true;
      } else {
        lockMap := lockMap[lid := FREE];
      }
    }

    method RevokeHandler(lid: LockId)
      requires lid in lockMap
      modifies this
      ensures State() == RevokeHandled(old(State()), lid)
    {
      if lockMap[lid] == FREE {
        revokerThreadStatus := true;
        lockMap := lockMap[lid := RELEASING];
        revokeList := revokeList + [lid];
      } else {
        revokeList := revokeList + [lid];
      }
    }

    method RetryHandler(lid: LockId)
      modifies this
      ensures State() == RetryHandled(old(State()), lid)
    {
      retryMap := retryMap[lid := true];
    }

    /** The scan of a releaser pass; `pos` is where its iterator stops. */
    method ReleaserScan() returns (found: Option<LockId>, pos: nat)
      requires forall lid :: lid in revokeList ==> lid in lockMap
      modifies this
      ensures found == FirstReleasing(old(State()), old(revokeList))
      ensures State() == match found
                         case Some(lid) => SetSt(old(State()), lid, NONE)
                         case None => old(State()).(releaserOn := false)
      ensures found.Some? ==> pos < |revokeList| && revokeList[pos] == found.value
      ensures found.Some? ==> FirstAt(old(State()), revokeList, pos)
    {
      pos := 0;
      while pos < |revokeList|
        invariant 0 <= pos <= |revokeList|
        invariant State() == old(State())
        invariant forall j :: 0 <= j < pos ==> St(State(), revokeList[j]) != RELEASING
        invariant FirstReleasing(State(), revokeList) == FirstReleasing(State(), revokeList[pos..])
      {
        if lockMap[revokeList[pos]] == RELEASING {
          found := Some(revokeList[pos]);
          lockMap := lockMap[revokeList[pos] := NONE];
          return;
        }
        pos := pos + 1;
      }
      found := None;
      revokerThreadStatus := false;
    }

    /** After the release RPC: erase the list entry at the iterator and switch the releaser off. */
    method ReleaserErase(lid: LockId, pos: nat)
      requires pos < |revokeList| && revokeList[pos] == lid
      requires forall j :: 0 <= j < pos ==> revokeList[j] != lid
      modifies this
      ensures State() == PassDone(old(State()), lid)
    {
      RemoveAt(revokeList, pos);
      revokeList := revokeList[..pos] + revokeList[pos + 1..];
      revokerThreadStatus := false;
    }
  }
}
