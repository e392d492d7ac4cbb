/** The plain lock server: one bit per lock, no caching and no queues. */
module PlainLock {
  import opened LockTypes

  /** `threadStatusMap`: 1 while the lock is held, 0 after its first release. */
  type Table = map<LockId, int>

  predicate Held(m: Table, lid: LockId) {
    lid in m && m[lid] == 1
  }

  function Acquired(m: Table, lid: LockId): Table {
    m[lid := 1]
  }

  function Released(m: Table, lid: LockId): Table {
    if Held(m, lid) then m[lid := 0] else m
  }

  datatype ReleaseReply = ReleaseOK | ReleaseNoEnt

  class LockServer {
    var threadStatusMap: Table

    constructor ()
      ensures threadStatusMap == map[]
    {
      threadStatusMap := map[];
    }

    /** One attempt of the acquire loop; `granted` is false while the caller keeps waiting. */
    method Acquire(lid: LockId) returns (granted: bool)
      modifies this
      ensures granted <==> !Held(old(threadStatusMap), lid)
      ensures threadStatusMap == if granted then Acquired(old(threadStatusMap), lid) else old(threadStatusMap)
      ensures Held(threadStatusMap, lid)
    {
      if lid in threadStatusMap {
        if threadStatusMap[lid] == 1 {
          return false;
        }
        threadStatusMap := threadStatusMap[lid := 1];
      } else {
        threadStatusMap := threadStatusMap[lid := 1];
      }
      granted := true;
    }

    method Release(lid: LockId) returns (r: ReleaseReply)
      modifies this
      ensures r == ReleaseOK <==> Held(old(threadStatusMap), lid)
      ensures threadStatusMap == Released(old(threadStatusMap), lid)
      ensures !Held(threadStatusMap, lid) && (r == ReleaseNoEnt ==> threadStatusMap == old(threadStatusMap))
    {
      r := ReleaseNoEnt;
      if lid in threadStatusMap && threadStatusMap[lid] == 1 {
        threadStatusMap := threadStatusMap[lid := 0];
        r := ReleaseOK;
      }
    }
  }
}
