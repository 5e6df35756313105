/** Identifiers, capacity limits and result codes shared by all lock algorithms. */
module LockTypes {

  type NodeId = nat
  type LockId = nat

  /** The all-ones 32-bit sentinels: "no node" and "no lock". */
  const INVALID_NODE_ID: NodeId := 0xFFFF_FFFF
  const INVALID_LOCK_ID: LockId := 0xFFFF_FFFF

  const MAX_NODE_COUNT: nat := 64
  const MAX_LOCK_COUNT: nat := 1024

  datatype Option<+T> = None | Some(value: T)

  datatype LockResult =
    | Success
    | InvalidParam
    | Timeout
    | Busy
    | NotOwner
    | NotInitialized
    | ShmFailure
    | Unknown
}
