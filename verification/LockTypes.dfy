/** Names shared by the lock and extent services. */
module LockTypes {

  datatype Option<+T> = None | Some(value: T)

  /** `lock_protocol::lockid_t`; an extent is protected by the lock with the same number. */
  type LockId = nat

  /** A lock client is named by the "host:port" its revoke and retry server listens on. */
  datatype ClientId = ClientId(hostAndPort: string)

  /** A thread of one client process. */
  type ThreadId = nat

  /** The two answers of the acquire RPC. */
  datatype Reply = OK | RETRY

  /** An entry of the server's retry and revoke queues. */
  datatype Msg = Msg(lid: LockId, client: ClientId)
}
