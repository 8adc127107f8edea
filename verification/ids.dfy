/** Identifiers shared by the ledger and the session coordinator. */
module Ids {
  import opened Ints

  /** A player's uuid, as the string the client presents. */
  type Uuid = string

  /** A connection's session id (`usize`, drawn at random on `Connect`). */
  type SessionId = uint64
}
