/** Identities shared between the ledger and the replication envelope. Each
    Java class has a distinguished `NULL_ID` instance; it is its own variant here
    so that it can never collide with a real identity. */
module Identifiers {

  /** `ClientID`: a connected client, known by its channel number. */
  datatype ClientId = NullClient | Client(channel: nat)

  /** `TransactionID` as carried in a replication envelope. */
  datatype TransactionId = NullTransaction | Transaction(seqNo: int)

  /** `ClientInstanceID`: which fetch of an entity a client holds. */
  datatype ClientInstanceId = NullInstance | Instance(n: int)

  /** `EntityID`: the class name and instance name of a server entity. */
  datatype EntityId = NullEntity | Entity(className: string, entityName: string)
}
