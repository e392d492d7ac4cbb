/** The extent server: the single store that every cache must agree with. */
module ExtentStore {
  import opened LockTypes

  type ExtentId = LockId

  /** `filedata` without its time stamps. */
  datatype Stored = Stored(content: string, size: nat)

  type Files = map<ExtentId, Stored>

  function Put(m: Files, e: ExtentId, buf: string): Files {
    m[e := Stored(buf, |buf|)]
  }

  function Get(m: Files, e: ExtentId): Option<string> {
    if e in m then Some(m[e].content) else None
  }

  function GetAttr(m: Files, e: ExtentId): Option<nat> {
    if e in m then Some(m[e].size) else None
  }

  /** The stored size is the length of the stored content. */
  ghost predicate SizesRight(m: Files) {
    forall e :: e in m ==> m[e].size == |m[e].content|
  }

  class ExtentServer {
    var fileDataMap: Files

    ghost predicate Valid()
      reads this
    {
      SizesRight(fileDataMap)
    }

    constructor ()
      ensures Valid() && fileDataMap == map[]
    {
      fileDataMap := map[];
    }

    method PutExtent(e: ExtentId, buf: string)
      requires Valid()
      modifies this
      ensures Valid() && fileDataMap == Put(old(fileDataMap), e, buf)
    {
      if e in fileDataMap {
        fileDataMap := fileDataMap[e := fileDataMap[e].(content := buf)];
        fileDataMap := fileDataMap[e := fileDataMap[e].(size := |fileDataMap[e].content|)];
      } else {
        fileDataMap := fileDataMap[e := Stored(buf, |buf|)];
      }
    }
  }
}

/** The extent client: a write-back cache in front of the extent server. */
module ExtentCache {
  import opened LockTypes
  import opened ExtentStore

  datatype Cached = Cached(content: string, size: nat, dirty: bool)

  type Cache = map<ExtentId, Cached>

  function CachePut(m: Cache, e: ExtentId, buf: string): Cache {
    m[e := Cached(buf, |buf|, true)]
  }

  function CacheInsert(m: Cache, e: ExtentId, buf: string, size: nat): Cache {
    m[e := Cached(buf, size, false)]
  }

  /** What flush sends to the extent server. */
  function FlushFiles(m: Cache, e: ExtentId, files: Files): Files {
    if e in m && m[e].dirty then Put(files, e, m[e].content) else files
  }

  function FlushCache(m: Cache, e: ExtentId): Cache {
    m - {e}
  }

  /** The content that a caller of this client sees: the cached copy hides the server's. */
  function Seen(m: Cache, files: Files, e: ExtentId): Option<string> {
    if e in m then Some(m[e].content) else Get(files, e)
  }

  ghost predicate CachedSizesRight(m: Cache) {
    forall e :: e in m ==> m[e].size == |m[e].content|
  }

  class ExtentClient {
    var fileDataMap: Cache
    var removed: set<ExtentId>   // the entries with `is_removed`

    ghost predicate Valid()
      reads this
    {
      CachedSizesRight(fileDataMap) && removed <= fileDataMap.Keys
    }

    constructor ()
      ensures Valid() && fileDataMap == map[] && removed == {}
    {
      fileDataMap, removed := map[], {};
    }

    method PutExtent(e: ExtentId, buf: string)
      requires Valid()
      modifies this`fileDataMap
      ensures Valid() && fileDataMap == CachePut(old(fileDataMap), e, buf)
      ensures forall files, x ::
                Seen(fileDataMap, files, x) == if x == e then Some(buf) else Seen(old(fileDataMap), files, x)
    {
      if e in fileDataMap {
        fileDataMap := fileDataMap[e := fileDataMap[e].(content := buf)];
        fileDataMap := fileDataMap[e := fileDataMap[e].(size := |fileDataMap[e].content|)];
        fileDataMap := fileDataMap[e := fileDataMap[e].(dirty := true)];
      } else {
        fileDataMap := fileDataMap[e := Cached(buf, |buf|, true)];
      }
    }

    /** A hit answers from the cache; a miss fetches content and size, and stops if the server has none. */
    method GetExtent(e: ExtentId, server: ExtentServer) returns (buf: Option<string>)
      requires Valid() && server.Valid()
      modifies this`fileDataMap
      ensures Valid() && buf == Seen(old(fileDataMap), server.fileDataMap, e)
      ensures forall x :: Seen(fileDataMap, server.fileDataMap, x) == Seen(old(fileDataMap), server.fileDataMap, x)
      ensures fileDataMap == if e in old(fileDataMap) || buf.None? then old(fileDataMap)
                             else CacheInsert(old(fileDataMap), e, buf.value, |buf.value|)
    {
      if e in fileDataMap {
        return Some(fileDataMap[e].content);
      }
      buf := Get(server.fileDataMap, e);
      if buf.Some? {
        var size := GetAttrExtent(e, server);
        fileDataMap := CacheInsert(fileDataMap, e, buf.value, size.value);
      }
    }

    /** The size is the length of the content that `GetExtent` would answer with. */
    method GetAttrExtent(e: ExtentId, server: ExtentServer) returns (size: Option<nat>)
      requires Valid() && server.Valid()
      ensures size.Some? <==> Seen(fileDataMap, server.fileDataMap, e).Some?
      ensures size.Some? ==> size.value == |Seen(fileDataMap, server.fileDataMap, e).value|
    {
      size := if e in fileDataMap then Some(fileDataMap[e].size) else GetAttr(server.fileDataMap, e);
    }

    /** Marks a cached extent; get and put go on as if it were not marked. */
    method RemoveExtent(e: ExtentId) returns (ok: bool)
      requires Valid()
      modifies this`removed
      ensures Valid() && ok == (e in fileDataMap) && removed == if ok then old(removed) + {e} else old(removed)
    {
      ok := e in fileDataMap;
      if ok {
        removed := removed + {e};
      }
    }

    /**
     * `dorelease` of the lock release user: flush the extent that the lock protects. The call for a marked one
     * carries no argument, so the server cannot read it, and the client stops on the answer: `ok` is false.
     */
    method Flush(e: ExtentId, server: ExtentServer) returns (ok: bool)
      requires Valid() && server.Valid()
      modifies this, server
      ensures Valid() && server.Valid() && removed == old(removed) && ok == (e !in old(removed))
      ensures !ok ==> fileDataMap == old(fileDataMap) && server.fileDataMap == old(server.fileDataMap)
      ensures ok ==> fileDataMap == FlushCache(old(fileDataMap), e)
      ensures ok ==> server.fileDataMap == FlushFiles(old(fileDataMap), e, old(server.fileDataMap))
      ensures forall x :: x != e || x !in old(fileDataMap) || old(fileDataMap)[x].dirty ==>
                Seen(fileDataMap, server.fileDataMap, x) == Seen(old(fileDataMap), old(server.fileDataMap), x)
    {
      ok := true;
      if e in fileDataMap {
        if e in removed {
          return false;
        }
        if fileDataMap[e].dirty {
          server.PutExtent(e, fileDataMap[e].content);
        }
        fileDataMap := fileDataMap - {e};
      } else {
        assert fileDataMap - {e} == fileDataMap;
      }
    }
  }
}
