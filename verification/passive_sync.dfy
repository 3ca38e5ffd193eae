/** The messages an active server sends to bring a passive server up to date:
    seven factories, each of which places one event of the synchronization
    stream into the common replication envelope. The envelope is a plain
    record here; only the fields the factories set are modelled.

    `SyncUnit` is the same set of events as a tagged variant with named fields.
    `Encode` is the factory for each event and `Decode` is its inverse, so the
    field placement is shown to lose nothing. */
module PassiveSync {
  import opened Common
  import opened Identifiers

  /** The replication message kind; a passive-sync message is always `Sync`. */
  datatype MessageKind = Replicate | Sync

  /** The synchronization members of `ReplicationType`. */
  datatype ReplicationType =
    | SyncBegin
    | SyncEnd
    | SyncEntityBegin
    | SyncEntityEnd
    | SyncEntityConcurrencyBegin
    | SyncEntityConcurrencyEnd
    | SyncEntityConcurrencyPayload

  datatype EntityDescriptor = EntityDescriptor(entityId: EntityId, clientInstance: ClientInstanceId, version: Int64)

  /** The replication envelope. `payload` is `None` for a null byte array. */
  datatype ReplicationMessage = ReplicationMessage(
    kind: MessageKind,
    descriptor: EntityDescriptor,
    source: ClientId,
    transactionId: TransactionId,
    oldestTransactionId: TransactionId,
    replicationType: ReplicationType,
    payload: Option<Bytes>,
    concurrency: Int32,
    debugId: string)

  const NO_VERSION: Int64 := 0

  /** The fields every passive-sync message shares: kind `Sync`, no client,
      no transactions, no client instance, empty debug id. */
  predicate IsSyncEnvelope(m: ReplicationMessage) {
    && m.kind == Sync
    && m.source == NullClient
    && m.transactionId == NullTransaction
    && m.oldestTransactionId == NullTransaction
    && m.descriptor.clientInstance == NullInstance
    && m.debugId == ""
  }

  /** The private constructor: the envelope around one event. */
  function NewPassiveSyncMessage(t: ReplicationType, id: EntityId, version: Int64, concurrency: Int32, payload: Option<Bytes>): (m: ReplicationMessage)
    ensures IsSyncEnvelope(m)
    ensures m.replicationType == t && GetEntityID(m) == id && m.descriptor.version == version
    ensures m.concurrency == concurrency && m.payload == payload
  {
    ReplicationMessage(Sync, EntityDescriptor(id, NullInstance, version), NullClient,
                       NullTransaction, NullTransaction, t, payload, concurrency, "")
  }

  /** The entity a message is about: the id of the decoded event, and the
      null id for the stream start and end. */
  function GetEntityID(m: ReplicationMessage): (id: EntityId)
    ensures Decode(m).Some? && (Decode(m).value.StreamBegin? || Decode(m).value.StreamEnd?) ==> id == NullEntity
    ensures Decode(m).Some? && !Decode(m).value.StreamBegin? && !Decode(m).value.StreamEnd? ==> id == Decode(m).value.id
  {
    m.descriptor.entityId
  }

  // ---------------------------------------------------------------------
  // The seven factories
  // ---------------------------------------------------------------------

  /** Opens the stream; carries no entity, no version, no key, no payload. */
  function CreateStartSyncMessage(): (m: ReplicationMessage)
    ensures IsSyncEnvelope(m) && m.replicationType == SyncBegin
    ensures GetEntityID(m) == NullEntity && m.descriptor.version == NO_VERSION
    ensures m.concurrency == 0 && m.payload == None
  {
    NewPassiveSyncMessage(SyncBegin, NullEntity, NO_VERSION, 0, None)
  }

  /** Closes the stream, handing on the caller's trailer bytes untouched. */
  function CreateEndSyncMessage(extras: Option<Bytes>): (m: ReplicationMessage)
    ensures IsSyncEnvelope(m) && m.replicationType == SyncEnd
    ensures GetEntityID(m) == NullEntity && m.descriptor.version == NO_VERSION
    ensures m.concurrency == 0 && m.payload == extras
  {
    NewPassiveSyncMessage(SyncEnd, NullEntity, NO_VERSION, 0, extras)
  }

  /** Whether the passive may later delete the entity, encoded in the key
      field: 0 for deletable, 1 for not deletable. */
  function CanDeleteKey(canDelete: bool): (k: Int32)
    ensures k == 0 || k == 1
  {
    if canDelete then 0 else 1
  }

  /** Reads the deletable flag back from the key field of an entity start. */
  function DecodeCanDelete(k: Int32): bool {
    k == 0
  }

  /** The flag survives the round trip through the key field, so two
      different flags never share a key value. */
  lemma CanDeleteKeyRoundTrip(canDelete: bool)
    ensures DecodeCanDelete(CanDeleteKey(canDelete)) == canDelete
    ensures CanDeleteKey(canDelete) != CanDeleteKey(!canDelete)
  {
  }

  /** Starts one entity: its id, version and configuration, with the
      deletable flag in the key field. */
  function CreateStartEntityMessage(id: EntityId, version: Int64, configPayload: Option<Bytes>, canDelete: bool): (m: ReplicationMessage)
    ensures IsSyncEnvelope(m) && m.replicationType == SyncEntityBegin
    ensures GetEntityID(m) == id && m.descriptor.version == version
    ensures m.payload == configPayload
    ensures m.concurrency == (if canDelete then 0 else 1)
    ensures DecodeCanDelete(m.concurrency) == canDelete
  {
    NewPassiveSyncMessage(SyncEntityBegin, id, version, CanDeleteKey(canDelete), configPayload)
  }

  /** Ends one entity. */
  function CreateEndEntityMessage(id: EntityId, version: Int64): (m: ReplicationMessage)
    ensures IsSyncEnvelope(m) && m.replicationType == SyncEntityEnd
    ensures GetEntityID(m) == id && m.descriptor.version == version
    ensures m.concurrency == 0 && m.payload == None
  {
    NewPassiveSyncMessage(SyncEntityEnd, id, version, 0, None)
  }

  /** Starts one concurrency key of an entity; only positive keys are synced. */
  function CreateStartEntityKeyMessage(id: EntityId, version: Int64, concurrency: Int32): (m: ReplicationMessage)
    requires concurrency > 0
    ensures IsSyncEnvelope(m) && m.replicationType == SyncEntityConcurrencyBegin
    ensures GetEntityID(m) == id && m.descriptor.version == version
    ensures m.concurrency == concurrency && m.concurrency > 0 && m.payload == None
  {
    NewPassiveSyncMessage(SyncEntityConcurrencyBegin, id, version, concurrency, None)
  }

  /** Ends one concurrency key of an entity. */
  function CreateEndEntityKeyMessage(id: EntityId, version: Int64, concurrency: Int32): (m: ReplicationMessage)
    requires concurrency > 0
    ensures IsSyncEnvelope(m) && m.replicationType == SyncEntityConcurrencyEnd
    ensures GetEntityID(m) == id && m.descriptor.version == version
    ensures m.concurrency == concurrency && m.concurrency > 0 && m.payload == None
  {
    NewPassiveSyncMessage(SyncEntityConcurrencyEnd, id, version, concurrency, None)
  }

  /** One chunk of the state under a concurrency key. */
  function CreatePayloadMessage(id: EntityId, version: Int64, concurrency: Int32, payload: Option<Bytes>): (m: ReplicationMessage)
    requires concurrency > 0
    ensures IsSyncEnvelope(m) && m.replicationType == SyncEntityConcurrencyPayload
    ensures GetEntityID(m) == id && m.descriptor.version == version
    ensures m.concurrency == concurrency && m.concurrency > 0 && m.payload == payload
  {
    NewPassiveSyncMessage(SyncEntityConcurrencyPayload, id, version, concurrency, payload)
  }

  // ---------------------------------------------------------------------
  // The events as a tagged variant, and decoding
  // ---------------------------------------------------------------------

  datatype SyncUnit =
    | StreamBegin
    | StreamEnd(extras: Option<Bytes>)
    | EntityBegin(id: EntityId, version: Int64, config: Option<Bytes>, canDelete: bool)
    | EntityEnd(id: EntityId, version: Int64)
    | KeyBegin(id: EntityId, version: Int64, key: Int32)
    | KeyEnd(id: EntityId, version: Int64, key: Int32)
    | KeyPayload(id: EntityId, version: Int64, key: Int32, payload: Option<Bytes>)

  /** The factories' assertion: every key-carrying event has a positive key. */
  predicate WellFormedUnit(u: SyncUnit) {
    (u.KeyBegin? || u.KeyEnd? || u.KeyPayload?) ==> u.key > 0
  }

  /** Builds the message for an event with the matching factory. */
  function Encode(u: SyncUnit): (m: ReplicationMessage)
    requires WellFormedUnit(u)
    ensures IsSyncEnvelope(m)
  {
    match u
    case StreamBegin => CreateStartSyncMessage()
    case StreamEnd(x) => CreateEndSyncMessage(x)
    case EntityBegin(id, v, c, d) => CreateStartEntityMessage(id, v, c, d)
    case EntityEnd(id, v) => CreateEndEntityMessage(id, v)
    case KeyBegin(id, v, k) => CreateStartEntityKeyMessage(id, v, k)
    case KeyEnd(id, v, k) => CreateEndEntityKeyMessage(id, v, k)
    case KeyPayload(id, v, k, p) => CreatePayloadMessage(id, v, k, p)
  }

  /** Recovers the event from a message, rejecting any message no factory
      could have produced. */
  function Decode(m: ReplicationMessage): (r: Option<SyncUnit>)
    ensures r.Some? ==> IsSyncEnvelope(m) && WellFormedUnit(r.value)
  {
    var id := m.descriptor.entityId;
    var v := m.descriptor.version;
    if !IsSyncEnvelope(m) then None
    else match m.replicationType
      case SyncBegin =>
        if id == NullEntity && v == NO_VERSION && m.concurrency == 0 && m.payload == None
        then Some(StreamBegin) else None
      case SyncEnd =>
        if id == NullEntity && v == NO_VERSION && m.concurrency == 0
        then Some(StreamEnd(m.payload)) else None
      case SyncEntityBegin =>
        if m.concurrency == 0 || m.concurrency == 1
        then Some(EntityBegin(id, v, m.payload, DecodeCanDelete(m.concurrency))) else None
      case SyncEntityEnd =>
        if m.concurrency == 0 && m.payload == None then Some(EntityEnd(id, v)) else None
      case SyncEntityConcurrencyBegin =>
        if m.concurrency > 0 && m.payload == None then Some(KeyBegin(id, v, m.concurrency)) else None
      case SyncEntityConcurrencyEnd =>
        if m.concurrency > 0 && m.payload == None then Some(KeyEnd(id, v, m.concurrency)) else None
      case SyncEntityConcurrencyPayload =>
        if m.concurrency > 0 then Some(KeyPayload(id, v, m.concurrency, m.payload)) else None
  }

  /** Every event is recovered from the message its factory builds. */
  lemma DecodeEncode(u: SyncUnit)
    requires WellFormedUnit(u)
    ensures Decode(Encode(u)) == Some(u)
  {
  }

  /** Every message that decodes is exactly the factory's message for the
      decoded event: the factories reach all and only the decodable
      messages. */
  lemma EncodeDecode(m: ReplicationMessage, u: SyncUnit)
    requires Decode(m) == Some(u)
    ensures Encode(u) == m
  {
  }

  /** Distinct events give distinct messages. */
  lemma EncodeInjective(u1: SyncUnit, u2: SyncUnit)
    requires WellFormedUnit(u1) && WellFormedUnit(u2)
    requires Encode(u1) == Encode(u2)
    ensures u1 == u2
  {
    DecodeEncode(u1);
    DecodeEncode(u2);
  }

  /** `getEntityID` gives back the id handed to whichever factory built the
      message, and the null id for the stream start and end. */
  lemma GetEntityIDOfFactories(id: EntityId, version: Int64, key: Int32, p: Option<Bytes>, d: bool)
    requires key > 0
    ensures GetEntityID(CreateStartSyncMessage()) == NullEntity
    ensures GetEntityID(CreateEndSyncMessage(p)) == NullEntity
    ensures GetEntityID(CreateStartEntityMessage(id, version, p, d)) == id
    ensures GetEntityID(CreateEndEntityMessage(id, version)) == id
    ensures GetEntityID(CreateStartEntityKeyMessage(id, version, key)) == id
    ensures GetEntityID(CreateEndEntityKeyMessage(id, version, key)) == id
    ensures GetEntityID(CreatePayloadMessage(id, version, key, p)) == id
  {
  }
}
