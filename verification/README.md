# Replication ordering and topology core of terracotta-core, in Dafny

This project models four sequential pieces of the Terracotta server and client. It proves properties about each model.

- **Transaction order ledger** (`TransactionOrderPersistor`, module `TransactionOrder`).
  - The ledger keeps, for each client, the list of its in-flight transactions as `(local id, global id)` records.
  - It also keeps a durable counter of every transaction it has received, and an optional cached global list.
  - `updateWithNewMessage` does three things:
    - it rejects null or out-of-order arguments;
    - it bumps the counter;
    - it trims the client's list up to the oldest transaction the client still needs, then appends the new record.
  - `getIndexToReplay` merges every stored record into one list ordered by global id, then returns the position of a `(client, id)` pair, or -1.
  - The model is a pure state machine over a `map<ClientId, seq<Record>>`, the counter and the cache. Its invariant `Valid` says:
    - each list is ascending;
    - global ids are unique and no larger than the counter;
    - any cached list is the global order.
  - `updateWithNewMessage`, `getIndexToReplay` and `clearAllRecords` preserve `Valid`.
  - The removal as written does not: it leaves the cached global list in place, and that list then breaks the cache clause of `Valid` (see "## Findings"). The corrected removal, which also drops the cache, preserves `Valid`. It is the removal the call sequences below use.
  - The global order is defined declaratively and proved unique.
- **Passive synchronization messages** (`PassiveSyncMessage`, module `PassiveSync`).
  - Seven factories place the events of a synchronization stream into the common replication envelope.
  - The events are also given as a tagged variant. `Encode` (the factories) and `Decode` are proved inverse to each other.
  - Module `SyncProtocol` states a begin/end nesting of the events, as suggested by the paired `SYNC_*_BEGIN` / `SYNC_*_END` type names imported at `PassiveSyncMessage.java:23-29`. Nothing in the source enforces it. The module relates that nesting to the factories' positive-key rule.
- **Topology store** (`NodesStoreImpl`, module `NodesStore`).
  - The store holds:
    - the member node set;
    - the registered listeners;
    - the server names of this server's group;
    - the lookup from a node's `host:port` name to its configured server name.
  - Topology changes update the nodes, rebuild the lookup and notify each listener.
  - Module `Text` supplies the decimal rendering of ports and the split/join helpers.
- **Client configuration** (`ClientConfigurationSetupManager`, module `ClientConfig`).
  - It builds one server record per host/port pair.
  - It flattens the stripe member URIs into one comma-joined text.
  - `addServer` appends one record.

Java `null` arguments and results are `Option.None`. Errors are modelled in three ways:
- A checked or wrapped exception is a `Result.Failure`. The rejected ledger updates are a status value, and the ledger is left unchanged.
- An `Assert.assertTrue` and an array index the caller must keep in range are preconditions. These are the positive-key checks in three factories, the non-empty node set in `getAllNodes`, and a port for every host in the client configuration.
- A failed rebuild of the name lookup in `topologyChanged` is an error value in the outcome. The node set has already changed by then, as the code has it.

Behaviour notes, modelled as the code has them:
- `hasServerInCluster` tests the group-name set, the same set `hasServerInGroup` tests.
- `topologyChanged` never calls `updateServerNames`, so the group names do not follow topology changes.
- `getGroupNameFromNodeName` ignores its argument.
- When the name lookup cannot be rebuilt, `topologyChanged` has already updated the node set. It notifies no listener.

## Model

| member | source | states |
|---|---|---|
| TransactionOrder.Open | dso-l2/src/main/java/com/tc/objectserver/persistence/TransactionOrderPersistor.java:56-64 | The constructor keeps the stored lists and counter, writes the counter as 0 only when none is stored, and starts with no cached global list |
| TransactionOrder.FreshLedger | dso-l2/src/main/java/com/tc/objectserver/persistence/TransactionOrderPersistor.java:56-64 | A ledger opened on empty storage is valid, reports 0 received, and finds nothing to replay |
| TransactionOrder.TrimCount | dso-l2/src/main/java/com/tc/objectserver/persistence/TransactionOrderPersistor.java:98-106 | The trim walk removes exactly the longest prefix of records whose id is strictly below the oldest id. The first kept record, if any, is not older |
| TransactionOrder.UpdateWithNewMessage | dso-l2/src/main/java/com/tc/objectserver/persistence/TransactionOrderPersistor.java:71-111 | Null ids and an oldest id after the new id are rejected, with the ledger unchanged. Otherwise: the counter grows by one; the cache is dropped; the client's list becomes its trimmed suffix followed by the new record, whose global id is the new counter value; no other client's list changes; the invariant is preserved |
| TransactionOrder.UpdateKeepsValid | dso-l2/src/main/java/com/tc/objectserver/persistence/TransactionOrderPersistor.java:89-110 | Keeping a suffix of one list and appending a record numbered with the next counter value keeps the lists ascending and the global ids unique and bounded |
| TransactionOrder.RemoveTrackingForClient | dso-l2/src/main/java/com/tc/objectserver/persistence/TransactionOrderPersistor.java:116-119 | Removal deletes only that client's list, is a no-op on the lists when the client is absent, and keeps the counter. With the cache dropped, it keeps the invariant |
| TransactionOrder.RemoveTrackingForClientAsWritten | dso-l2/src/main/java/com/tc/objectserver/persistence/TransactionOrderPersistor.java:116-119 | The code as written deletes the client's list but leaves the cached global list in place |
| TransactionOrder.ForgottenClientIsNotReplayed | dso-l2/src/main/java/com/tc/objectserver/persistence/TransactionOrderPersistor.java:116-119 | After the corrected removal, no transaction of the forgotten client is offered for replay |
| TransactionOrder.ClearAllRecords | dso-l2/src/main/java/com/tc/objectserver/persistence/TransactionOrderPersistor.java:180-183 | Clearing keeps the counter, leaves nothing stored, and yields a valid ledger |
| TransactionOrder.ClearedLedgerReplaysNothing | dso-l2/src/main/java/com/tc/objectserver/persistence/TransactionOrderPersistor.java:180-183 | After clearing, no pair is found for replay |
| TransactionOrder.GetReceivedTransactionCount | dso-l2/src/main/java/com/tc/objectserver/persistence/TransactionOrderPersistor.java:185-190 | The count of transactions ever observed bounds every stored global id in a valid ledger: it counts received, not stored, transactions |
| TransactionOrder.RetainedEntries | dso-l2/src/main/java/com/tc/objectserver/persistence/TransactionOrderPersistor.java:147-153 | The walk over all lists visits exactly the stored records, each tagged with its client |
| TransactionOrder.SortMap | dso-l2/src/main/java/com/tc/objectserver/persistence/TransactionOrderPersistor.java:146-153 | The tree map holds every stored entry under its own global id and nothing else, given unique global ids |
| TransactionOrder.InKeyOrder | dso-l2/src/main/java/com/tc/objectserver/persistence/TransactionOrderPersistor.java:154 | The tree map's values come out strictly ascending by key and contain exactly the entries whose keys are in range |
| TransactionOrder.GlobalList | dso-l2/src/main/java/com/tc/objectserver/persistence/TransactionOrderPersistor.java:144-157 | The merged list is the global order: strictly ascending by global id, with exactly the stored records as elements |
| TransactionOrder.BuildGlobalListIfNecessary | dso-l2/src/main/java/com/tc/objectserver/persistence/TransactionOrderPersistor.java:144-157 | A present cache is reused as is, and an absent one is filled with the global order. The lists and counter are untouched |
| TransactionOrder.FirstMatch | dso-l2/src/main/java/com/tc/objectserver/persistence/TransactionOrderPersistor.java:164-174 | The scan returns the position of the first entry for the client and id, or -1 when no entry matches |
| TransactionOrder.GetIndexToReplay | dso-l2/src/main/java/com/tc/objectserver/persistence/TransactionOrderPersistor.java:163-175 | The index is the position of the pair's first occurrence in the global order, and -1 exactly when no stored record matches the pair. The lists and counter are unchanged, and the cache is left filled with the global order |
| TransactionOrder.ReplayIndexIsOrderIndependent | dso-l2/src/main/java/com/tc/objectserver/persistence/TransactionOrderPersistor.java:163-175 | An index read off one global order is the index in every global order, and is -1 exactly when nothing stored matches |
| TransactionOrder.GlobalOrderIsUnique | dso-l2/src/main/java/com/tc/objectserver/persistence/TransactionOrderPersistor.java:146-154 | The ordering by global id leaves no freedom: two global orders of the same lists are equal |
| TransactionOrder.AscendingWithSameElements | dso-l2/src/main/java/com/tc/objectserver/persistence/TransactionOrderPersistor.java:146-154 | Two strictly ascending lists with the same elements are the same list |
| TransactionOrder.TailMembers | dso-l2/src/main/java/com/tc/objectserver/persistence/TransactionOrderPersistor.java:146-154 | The tail of a strictly ascending list holds every element except the head |
| TransactionOrder.Step | dso-l2/src/main/java/com/tc/objectserver/persistence/TransactionOrderPersistor.java:71-183 | Every public call keeps the ledger invariant, where the removal is the corrected one from "## Findings". The removal as written breaks the cache clause of the invariant (`AsWrittenRemoveReplaysForgottenClient`) |
| TransactionOrder.Run | dso-l2/src/main/java/com/tc/objectserver/persistence/TransactionOrderPersistor.java:71-183 | Any sequence of public calls keeps the ledger invariant, with the removal taken as the corrected one from "## Findings" |
| TransactionOrder.ReceivedCountsAcceptedUpdates | dso-l2/src/main/java/com/tc/objectserver/persistence/TransactionOrderPersistor.java:185-190 | The received count grows by exactly the number of accepted updates in any call sequence, and never decreases |
| TransactionOrder.TrimKeepsOldestStillNeeded | dso-l2/src/main/java/com/tc/objectserver/persistence/TransactionOrderPersistor.java:98-110 | Ids 1..4, updated with id 5 and oldest 3, leave 3, 4, 5: the record equal to the oldest is kept and the new one goes last |
| TransactionOrder.InterleavedFirst | dso-l2/src/main/java/com/tc/objectserver/persistence/TransactionOrderPersistor.java:84-110 | The first update of a client on an empty ledger stores exactly one record, numbered 1 |
| TransactionOrder.InterleavedSecond | dso-l2/src/main/java/com/tc/objectserver/persistence/TransactionOrderPersistor.java:84-110 | A second client's first update gets the next global id in a list of its own, and leaves the first client's list alone |
| TransactionOrder.InterleavedThird | dso-l2/src/main/java/com/tc/objectserver/persistence/TransactionOrderPersistor.java:98-110 | A later update whose oldest id is still stored keeps that record and appends the new one with the next global id |
| TransactionOrder.InterleavedBuckets | dso-l2/src/main/java/com/tc/objectserver/persistence/TransactionOrderPersistor.java:71-111 | The calls a:1, b:1, a:2 leave a valid ledger whose lists hold global ids 1, 3 for a and 2 for b |
| TransactionOrder.ReplayIndexFromOrder | dso-l2/src/main/java/com/tc/objectserver/persistence/TransactionOrderPersistor.java:163-175 | Whatever global order an index is read from, the replay query returns that index |
| TransactionOrder.RestartKeepsReplay | dso-l2/src/main/java/com/tc/objectserver/persistence/TransactionOrderPersistor.java:39-64 | Reopening a ledger from its stored lists and counter gives a valid ledger with the same received count and the same replay index for every client and id, so a restarted server replays in the original order |
| TransactionOrder.InterleavedClientsReplayInArrivalOrder | dso-l2/src/main/java/com/tc/objectserver/persistence/TransactionOrderPersistor.java:40-43 | Transactions of two interleaved clients replay in their original arrival order across clients |
| TransactionOrder.ForgetThenUpdateStartsAfresh | dso-l2/src/main/java/com/tc/objectserver/persistence/TransactionOrderPersistor.java:84-87 | A client forgotten and then heard from again starts a new list holding only the new record |
| TransactionOrder.AsWrittenRemoveReplaysForgottenClient | dso-l2/src/main/java/com/tc/objectserver/persistence/TransactionOrderPersistor.java:116-119 | After the as-written removal the stale cache still places a forgotten client's transaction, though no stored record is that client's, so the ledger invariant fails. The corrected removal returns -1 |
| TransactionOrder.StaleCacheIsReachable | dso-l2/src/main/java/com/tc/objectserver/persistence/TransactionOrderPersistor.java:163-175 | One accepted update followed by one replay query reaches a ledger with a filled cache and a non-empty list, which the previous lemma needs |
| PassiveSync.NewPassiveSyncMessage | tc-messaging/src/main/java/com/tc/l2/msg/PassiveSyncMessage.java:78-83 | Every message is of kind SYNC, with null client, null transactions, null client instance and empty debug id. The type, entity, version, key and payload are placed as given |
| PassiveSync.CreateStartSyncMessage | tc-messaging/src/main/java/com/tc/l2/msg/PassiveSyncMessage.java:43-45 | The stream start carries no entity, no version, key 0 and no payload |
| PassiveSync.CreateEndSyncMessage | tc-messaging/src/main/java/com/tc/l2/msg/PassiveSyncMessage.java:46-48 | The stream end carries no entity, no version and key 0, and its payload is the caller's trailer |
| PassiveSync.CreateStartEntityMessage | tc-messaging/src/main/java/com/tc/l2/msg/PassiveSyncMessage.java:49-52 | The entity start carries id, version and configuration. Its key field is 0 for deletable and 1 for not deletable, and decodes back to the flag |
| PassiveSync.CreateEndEntityMessage | tc-messaging/src/main/java/com/tc/l2/msg/PassiveSyncMessage.java:53-55 | The entity end carries id and version, key 0 and no payload |
| PassiveSync.CreateStartEntityKeyMessage | tc-messaging/src/main/java/com/tc/l2/msg/PassiveSyncMessage.java:56-60 | Only positive keys are accepted. The key start carries id, version and key, and no payload |
| PassiveSync.CreateEndEntityKeyMessage | tc-messaging/src/main/java/com/tc/l2/msg/PassiveSyncMessage.java:61-65 | Only positive keys are accepted. The key end carries id, version and key, and no payload |
| PassiveSync.CreatePayloadMessage | tc-messaging/src/main/java/com/tc/l2/msg/PassiveSyncMessage.java:66-70 | Only positive keys are accepted. A payload message carries id, version, key and the payload |
| PassiveSync.GetEntityID | tc-messaging/src/main/java/com/tc/l2/msg/PassiveSyncMessage.java:95-97 | The entity id of a decodable message is the id of the event it decodes to, and the null id for the stream start and end |
| PassiveSync.CanDeleteKey | tc-messaging/src/main/java/com/tc/l2/msg/PassiveSyncMessage.java:50-51 | The deletable flag is stored as key 0 or 1 |
| PassiveSync.CanDeleteKeyRoundTrip | tc-messaging/src/main/java/com/tc/l2/msg/PassiveSyncMessage.java:50-51 | The flag is recovered from the key, and the two flags use different keys |
| PassiveSync.Encode | tc-messaging/src/main/java/com/tc/l2/msg/PassiveSyncMessage.java:43-70 | Each event is built by its factory into a sync envelope |
| PassiveSync.Decode | tc-messaging/src/main/java/com/tc/l2/msg/PassiveSyncMessage.java:43-83 | Only sync envelopes that some factory could have built decode, and every decoded event has a positive key where it carries one |
| PassiveSync.DecodeEncode | tc-messaging/src/main/java/com/tc/l2/msg/PassiveSyncMessage.java:43-83 | Every event is recovered from its factory's message: the field placement loses nothing |
| PassiveSync.EncodeDecode | tc-messaging/src/main/java/com/tc/l2/msg/PassiveSyncMessage.java:43-83 | Every decodable message is exactly the factory output for the event it decodes to |
| PassiveSync.EncodeInjective | tc-messaging/src/main/java/com/tc/l2/msg/PassiveSyncMessage.java:43-70 | Distinct events give distinct messages |
| PassiveSync.GetEntityIDOfFactories | tc-messaging/src/main/java/com/tc/l2/msg/PassiveSyncMessage.java:95-97 | `getEntityID` returns the id given to the factory, and the null id for the stream start and end |
| SyncProtocol.Step | tc-messaging/src/main/java/com/tc/l2/msg/PassiveSyncMessage.java:43-70 | An event allowed in the stream order has a positive key where it carries one, and nothing is allowed after the stream end |
| SyncProtocol.RunnableUnitsAreWellFormed | tc-messaging/src/main/java/com/tc/l2/msg/PassiveSyncMessage.java:56-70 | Every event of a stream that follows the order can be built by the factories |
| SyncProtocol.NothingAfterDone | tc-messaging/src/main/java/com/tc/l2/msg/PassiveSyncMessage.java:46-48 | No event is accepted after the stream end |
| SyncProtocol.AcceptedStreamIsBracketed | tc-messaging/src/main/java/com/tc/l2/msg/PassiveSyncMessage.java:43-48 | A complete stream starts with the stream start and ends with the stream end |
| SyncProtocol.EndsWithStreamEnd | tc-messaging/src/main/java/com/tc/l2/msg/PassiveSyncMessage.java:46-48 | Any run that reaches the end state ends on a stream end |
| SyncProtocol.OneEntityStreamIsAccepted | tc-messaging/src/main/java/com/tc/l2/msg/PassiveSyncMessage.java:43-70 | A stream with one entity holding one key follows the order |
| SyncProtocol.ZeroKeyStreamIsRejected | tc-messaging/src/main/java/com/tc/l2/msg/PassiveSyncMessage.java:56-60 | The same stream with key 0 is rejected, as the factories reject key 0 |
| SyncProtocol.StrayEntityEndIsRejected | tc-messaging/src/main/java/com/tc/l2/msg/PassiveSyncMessage.java:53-55 | An entity end with no entity begun is rejected |
| NodesStore.AdvertisedHost | dso-l2/src/main/java/com/tc/config/NodesStoreImpl.java:85-88 | The advertised host is the group port's bind address, unless that is the wildcard address, in which case it is the configured host |
| NodesStore.NodeNameParts | dso-l2/src/main/java/com/tc/config/NodesStoreImpl.java:89 | The node name `NodeName` that keys the lookup is the advertised host, then the last colon, then the port in decimal |
| NodesStore.NodeNameInjective | dso-l2/src/main/java/com/tc/config/NodesStoreImpl.java:85-89 | Two configurations share a node name only when they advertise the same host and port |
| NodesStore.NodeNames | dso-l2/src/main/java/com/tc/config/NodesStoreImpl.java:82-89 | The node names of the known servers, position by position |
| NodesStore.FirstUnconfigured | dso-l2/src/main/java/com/tc/config/NodesStoreImpl.java:82-92 | The first known server whose configuration cannot be read, if any. Every server before it is configured |
| NodesStore.PutAllLastWins | dso-l2/src/main/java/com/tc/config/NodesStoreImpl.java:80-94 | The put loop `PutAll`, run in list order on a fresh map, gives a map whose keys are exactly the keys put. Each key maps to the value of its last put, as repeated `HashMap.put` does |
| NodesStore.PutAllLookup | dso-l2/src/main/java/com/tc/config/NodesStoreImpl.java:80-89 | The key of any put maps to the value of a put with that key at or after it, and to its own value when no later put shares the key |
| NodesStore.ServerNameMap | dso-l2/src/main/java/com/tc/config/NodesStoreImpl.java:79-95 | The lookup succeeds exactly when every known server is configured, and otherwise fails naming the first server that is not. On success its keys are exactly the servers' node names, each mapped to the last server with that node name |
| NodesStore.InitNodeNamesToServerNames | dso-l2/src/main/java/com/tc/config/NodesStoreImpl.java:79-81 | Without a configuration manager the rebuild fails |
| NodesStore.NewStoreForTests | dso-l2/src/main/java/com/tc/config/NodesStoreImpl.java:46-48 | The test constructor holds the nodes and nothing else |
| NodesStore.NewStore | dso-l2/src/main/java/com/tc/config/NodesStoreImpl.java:50-55 | The full constructor fails exactly when the lookup cannot be built. Otherwise it holds the nodes, group names, configuration and the rebuilt lookup |
| NodesStore.NotifyAll | dso-l2/src/main/java/com/tc/config/NodesStoreImpl.java:63-65 | Each listener is called once with the change, in registration order |
| NodesStore.TopologyChanged | dso-l2/src/main/java/com/tc/config/NodesStoreImpl.java:57-66 | The nodes become those old or added and not removed. The group names are untouched. On success the lookup is rebuilt and every listener is called; on failure the old lookup stays and no listener is called |
| NodesStore.RegisterForTopologyChange | dso-l2/src/main/java/com/tc/config/NodesStoreImpl.java:68-71 | A listener is added at the end unless already present, so the listeners never repeat. Nothing else changes |
| NodesStore.RegisterIsIdempotent | dso-l2/src/main/java/com/tc/config/NodesStoreImpl.java:38 | Registering a listener twice is the same as registering it once |
| NodesStore.EachListenerNotifiedOnce | dso-l2/src/main/java/com/tc/config/NodesStoreImpl.java:63-65 | Each registered listener is notified, and no listener twice, in a successful change |
| NodesStore.AddThenRemoveRestoresNodes | dso-l2/src/main/java/com/tc/config/NodesStoreImpl.java:59-60 | Adding a non-member node and then removing it restores the member set |
| NodesStore.AddedAndRemovedNodeIsAbsent | dso-l2/src/main/java/com/tc/config/NodesStoreImpl.java:59-60 | Removal is applied after addition, so a node both added and removed ends up absent |
| NodesStore.TopologyChangeKeepsGroupNames | dso-l2/src/main/java/com/tc/config/NodesStoreImpl.java:57-66 | A newly added node's server name is reported neither in the group nor in the cluster |
| NodesStore.GetAllNodes | dso-l2/src/main/java/com/tc/config/NodesStoreImpl.java:73-77 | For a non-empty store the array holds every member exactly once and nothing else |
| NodesStore.ServerNameOfKnownServer | dso-l2/src/main/java/com/tc/config/NodesStoreImpl.java:97-101 | After a change, `GetServerNameFromNodeName` on a known server's node name returns a server with that node name at or after it in the list. When node names are distinct, it returns the server itself |
| NodesStore.HasServerInCluster | dso-l2/src/main/java/com/tc/config/NodesStoreImpl.java:126-129 | The cluster query gives the same answer as the group query |
| NodesStore.GroupQueryAfterUpdate | dso-l2/src/main/java/com/tc/config/NodesStoreImpl.java:107-124 | `HasServerInGroup` after `updateServerNames` answers yes exactly for a name that was in the group or belongs to an added node, and belongs to no removed node |
| NodesStore.UpdateServerNames | dso-l2/src/main/java/com/tc/config/NodesStoreImpl.java:112-124 | A name is in the group afterwards exactly when it was there or was added, and was not removed. Nothing else changes |
| NodesStore.GetGroupNameFromNodeName | dso-l2/src/main/java/com/tc/config/NodesStoreImpl.java:132-138 | The result is the active group's name, and null without a configuration manager or group configuration |
| NodesStore.GroupNameIgnoresNodeName | dso-l2/src/main/java/com/tc/config/NodesStoreImpl.java:132-138 | The answer is the same whatever node name is asked about |
| Text.ParseIntOfIntToString | dso-l2/src/main/java/com/tc/config/NodesStoreImpl.java:89 | The decimal rendering of a port is read back to the same number |
| Text.IntToStringInjective | dso-l2/src/main/java/com/tc/config/NodesStoreImpl.java:89 | Distinct ports give distinct decimal renderings |
| Text.IntToString | dso-l2/src/main/java/com/tc/config/NodesStoreImpl.java:89 | The decimal rendering of a port is non-empty and made of digits and a minus sign. It is read back by `ParseIntOfIntToString` |
| Text.LastIndexOf | dso-l2/src/main/java/com/tc/config/NodesStoreImpl.java:89 | The result is the position of the last occurrence, or -1 exactly when there is none |
| Text.LastIndexOfSeparator | dso-l2/src/main/java/com/tc/config/NodesStoreImpl.java:89 | A separator that the tail does not contain is the last separator of the joined text |
| Text.SplitAtLastSeparator | dso-l1/src/main/java/com/tc/config/schema/setup/ClientConfigurationSetupManager.java:54 | Cutting text that ends in a separator followed by a separator-free tail cuts the front and keeps the tail as the last part |
| Text.SplitWithoutSeparator | dso-l1/src/main/java/com/tc/config/schema/setup/ClientConfigurationSetupManager.java:52 | Text without the separator is a single part |
| Text.SplitJoinNonEmpty | dso-l1/src/main/java/com/tc/config/schema/setup/ClientConfigurationSetupManager.java:48-57 | Joining parts that do not contain the separator can be cut back into exactly those parts |
| ClientConfig.IsSecure | dso-l1/src/main/java/com/tc/config/schema/setup/ClientConfigurationSetupManager.java:45 | A record is secure only when security settings are present and say so |
| ClientConfig.ServerRecord | dso-l1/src/main/java/com/tc/config/schema/setup/ClientConfigurationSetupManager.java:44-46 | A server record holds the given host and port, and is secure exactly when security settings are present and say so. `addServer` at line 62 builds the same record |
| ClientConfig.StripeText | dso-l1/src/main/java/com/tc/config/schema/setup/ClientConfigurationSetupManager.java:48-57 | There is no stripe text exactly when there are no member URIs |
| ClientConfig.JoinMemberUris | dso-l1/src/main/java/com/tc/config/schema/setup/ClientConfigurationSetupManager.java:48-57 | The loop gives the members joined by commas in list order, and no text for an empty list |
| ClientConfig.StripeTextSplitsBack | dso-l1/src/main/java/com/tc/config/schema/setup/ClientConfigurationSetupManager.java:48-57 | When no URI contains a comma, the stripe text splits back into exactly the member list |
| ClientConfig.StripeTextIsAmbiguousWithCommas | dso-l1/src/main/java/com/tc/config/schema/setup/ClientConfigurationSetupManager.java:48-57 | A URI containing a comma makes two different member lists give the same text |
| ClientConfig.Create | dso-l1/src/main/java/com/tc/config/schema/setup/ClientConfigurationSetupManager.java:40-58 | There is one record per host, holding the host, the port at the same position and the security flag. The arguments and security settings are kept. There is no text exactly for no members. A port is needed for every host |
| ClientConfig.AddServer | dso-l1/src/main/java/com/tc/config/schema/setup/ClientConfigurationSetupManager.java:60-63 | Exactly one record is added at the end under the manager's own security settings. Earlier records and everything else are unchanged |
| ClientConfig.AddServers | dso-l1/src/main/java/com/tc/config/schema/setup/ClientConfigurationSetupManager.java:60-63 | Repeated `addServer` calls add one record per server, and change neither the arguments, the security settings nor the stripe text |
| ClientConfig.CreateThenAddServer | dso-l1/src/main/java/com/tc/config/schema/setup/ClientConfigurationSetupManager.java:40-63 | Adding a server after construction is the same as listing it last among the constructor's hosts |
| ClientConfig.AddServersAppends | dso-l1/src/main/java/com/tc/config/schema/setup/ClientConfigurationSetupManager.java:60-63 | Repeated additions append the records in call order and keep the existing ones in place |
| ClientConfig.Source | dso-l1/src/main/java/com/tc/config/schema/setup/ClientConfigurationSetupManager.java:80-83 | `source` reports the same text as `rawConfigText` |
| ClientConfig.AccessorsAfterCreate | dso-l1/src/main/java/com/tc/config/schema/setup/ClientConfigurationSetupManager.java:65-103 | What the accessors `ProcessArguments`, `LoadedFromTrustedSource`, `RawConfigText`, `Source`, `GetSecurityInfo` and `L2DataOf` report after construction and any additions: the arguments unchanged; never a trusted source; the stripe text from both text accessors; the security settings as given; the record array with the constructor's servers followed by the added ones |

## Left out

- Storage backends. `IPersistentStorage` and `KeyValueStorage` are an in-memory map plus the counter. The stored counter is a parameter of `Open`.
- The value class the list storage is opened with. At `TransactionOrderPersistor.java:59` this is `LinkedHashSet`, while lists are put; only the ordered-list behaviour the code relies on is modelled.
- Concurrency. `synchronized`, the `volatile` fields, `CopyOnWriteArraySet` and the synchronized node set are not modelled: every operation is one atomic step.
- Serialization of messages and records (`basicSerializeTo`, `basicDeserializeFrom`, `Serializable`). These only delegate to the base class.
- TransactionOrder.UpdateWithNewMessage: the Java counter is a `long`, and overflow after 2^63 updates is not modelled. The counter is a `nat`.
- TransactionOrder: the Java `TransactionID.compareTo` is modelled as integer comparison. `TransactionID` is taken to be a sequence number.
- NodesStore.WILDCARD_IP: `TCSocketAddress` is not part of this model. Its wildcard address is taken to be `0.0.0.0`.
- NodesStore.Node: how a `Node` derives its server node name is not part of this model. The name is a field.
- NodesStore.Node: `Node.equals` is not part of this model. Two nodes are taken to be equal exactly when host, port, group port and server node name all agree. This equality decides `addAll`/`removeAll` at `NodesStoreImpl.java:59-60`, and so decides `AddThenRemoveRestoresNodes` and `AddedAndRemovedNodeIsAbsent`.
- NodesStore.TopologyChanged: a listener that throws, and so stops later listeners from being called, is not modelled.
- NodesStore.TopologyChanged: with the test constructor there is no configuration manager, and the rebuild fails with `NullConfigManager` after the nodes are updated. This matches the null dereference in the code.
- NodesStore.GetAllNodes: the order of the array follows the set's iteration order, which is unspecified. Only contents and length are stated.
- PassiveSync.CreateStartEntityKeyMessage: the `Assert.assertTrue(concurrency > 0)` at line 58 is modelled as a precondition. The failing assertion is not modelled.
- PassiveSync.CreateEndEntityKeyMessage: the assertion at line 63 is modelled as a precondition, for the same reason.
- PassiveSync.CreatePayloadMessage: the assertion at line 68 is modelled as a precondition, for the same reason.
- NodesStore.GetAllNodes: the `Assert.assertTrue` that the node set is non-empty, at `NodesStoreImpl.java:75`, is modelled as a precondition. The failing assertion is not modelled.
- ClientConfig: `commonL1Config` always returns null. It has no logic and no member.
- ClientConfig.Create: null strings inside the member list, which the join loop would treat as "no text yet", are not modelled. Strings are never null.
- ClientConfig.Create: a port array shorter than the host array makes the Java constructor throw. It is a precondition here.
- ClientConfig.L2DataOf: the Java accessor hands out the live array, and changing it from outside is not modelled.
- SyncProtocol: the begin/end nesting is suggested by the paired `SYNC_*_BEGIN` / `SYNC_*_END` type names imported at `PassiveSyncMessage.java:23-29`. Only the positive-key assertion is enforced by the factories.

## Findings

| source | as written | input that shows it | evidently intended | confidence | as-written member | corrected member |
|---|---|---|---|---|---|---|
| dso-l2/src/main/java/com/tc/objectserver/persistence/TransactionOrderPersistor.java:116-119 | `removeTrackingForClient` removes the client's list but does not drop the cached global list, unlike `updateWithNewMessage` (line 81) and `clearAllRecords` (line 182) | update client a with id 1 (oldest 1), query `getIndexToReplay(a, 1)` (fills the cache), remove tracking for a, query `getIndexToReplay(a, 1)` again: the stale cache gives 0 instead of -1 | removal drops the cache too, so a forgotten client's transactions are no longer offered for replay | medium, not executed | TransactionOrder.AsWrittenRemoveReplaysForgottenClient | TransactionOrder.RemoveTrackingForClient |
