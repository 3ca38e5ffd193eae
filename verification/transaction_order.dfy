/** The transaction order ledger of a server: for every client it keeps the
    client-local transaction ids still in flight, each paired with a global
    sequence number drawn from one durable counter, so that after a restart the
    transactions of all clients can be replayed in the order the server first
    saw them.

    The persistent key-value storage is an immutable map from client to its
    list of records plus the counter; the transient global list is an optional
    cache. Operations are pure functions from ledger to ledger. */
module TransactionOrder {
  import opened Common
  import opened Identifiers

  /** A client-local `TransactionID`; `compareTo` is the order of integers. */
  type TxId = int

  /** One stored `ClientTransaction`: local id and assigned global id. */
  datatype Record = Record(id: TxId, globalId: nat)

  /** A record together with the client whose list holds it: the element type
      of the global list. */
  datatype Entry = Entry(client: ClientId, id: TxId, globalId: nat)

  /** The stored per-client lists (`client_local_lists`). */
  type Buckets = map<ClientId, seq<Record>>

  /** Stored lists, the stored `received_transaction_count`, and the cached
      global list (`None` is Java's `globalList == null`). */
  datatype Ledger = Ledger(buckets: Buckets, received: nat, cache: Option<seq<Entry>>)

  /** Outcome of `updateWithNewMessage`; the two failures are its
      `IllegalArgumentException`s. */
  datatype Status = Accepted | NullArgument | OldestAfterNew

  // ---------------------------------------------------------------------
  // Views and invariants
  // ---------------------------------------------------------------------

  /** The list stored for `c`, empty when none is stored. */
  function BucketOf(b: Buckets, c: ClientId): seq<Record> {
    if c in b then b[c] else []
  }

  /** `e` is currently stored: its record is in its client's list. */
  predicate Retained(b: Buckets, e: Entry) {
    e.client in b && Record(e.id, e.globalId) in b[e.client]
  }

  predicate Ascending(s: seq<Entry>) {
    forall i, j :: 0 <= i < j < |s| ==> s[i].globalId < s[j].globalId
  }

  predicate BucketAscending(s: seq<Record>) {
    forall i, j :: 0 <= i < j < |s| ==> s[i].globalId < s[j].globalId
  }

  /** `s` is the merge of all stored lists ordered by global id: strictly
      ascending, and holding exactly the retained entries. */
  ghost predicate IsGlobalOrder(b: Buckets, s: seq<Entry>) {
    && Ascending(s)
    && forall e :: e in s <==> Retained(b, e)
  }

  /** No global id is assigned to two different stored entries. */
  ghost predicate UniqueGlobalIds(b: Buckets) {
    forall e1, e2 | Retained(b, e1) && Retained(b, e2) && e1.globalId == e2.globalId :: e1 == e2
  }

  /** What every reachable ledger satisfies: each list is in global order,
      every global id was issued by the counter (1 up to `received`) and is
      issued once, and a present cache is the global order of what is stored. */
  ghost predicate Valid(l: Ledger) {
    && (forall c | c in l.buckets :: BucketAscending(l.buckets[c]))
    && (forall e | Retained(l.buckets, e) :: 1 <= e.globalId <= l.received)
    && UniqueGlobalIds(l.buckets)
    && (l.cache.Some? ==> IsGlobalOrder(l.buckets, l.cache.value))
  }

  /** Every client other than `source` has the same list (or none) in both. */
  predicate OthersUnchanged(before: Buckets, after: Buckets, source: ClientId) {
    && after.Keys - {source} == before.Keys - {source}
    && forall c | c in before && c != source :: c in after && after[c] == before[c]
  }

  /** `after` is `before` with its longest prefix of ids strictly below
      `oldest` dropped, and `rec` appended last. */
  predicate TrimmedThenAppended(before: seq<Record>, oldest: TxId, rec: Record, after: seq<Record>) {
    && 0 < |after| <= |before| + 1
    && after[|after| - 1] == rec
    && after[..|after| - 1] == before[|before| - (|after| - 1)..]
    && (forall i :: 0 <= i < |before| - (|after| - 1) ==> before[i].id < oldest)
    && (1 < |after| ==> after[0].id >= oldest)
  }

  // ---------------------------------------------------------------------
  // Construction
  // ---------------------------------------------------------------------

  /** The constructor: opens the stored lists and counter, writing the
      counter as 0 only when storage has none, and starts with no cache. */
  function Open(stored: Buckets, storedCount: Option<nat>): (l: Ledger)
    ensures l.buckets == stored && l.cache.None?
    ensures storedCount.None? ==> l.received == 0
    ensures storedCount.Some? ==> l.received == storedCount.value
  {
    Ledger(stored, storedCount.GetOr(0), None)
  }

  /** A ledger opened on empty storage is valid, has seen nothing, and finds
      nothing to replay. */
  lemma FreshLedger(c: ClientId, id: TxId)
    ensures Valid(Open(map[], None))
    ensures GetReceivedTransactionCount(Open(map[], None)) == 0
    ensures GetIndexToReplay(Open(map[], None), c, id).0 == -1
  {
  }

  // ---------------------------------------------------------------------
  // updateWithNewMessage
  // ---------------------------------------------------------------------

  /** How many leading records of `s` have an id strictly below `oldest`:
      the walk that removes records until the first one that is not older. */
  function TrimCount(s: seq<Record>, oldest: TxId): (k: nat)
    ensures k <= |s|
    ensures forall i :: 0 <= i < k ==> s[i].id < oldest
    ensures k < |s| ==> s[k].id >= oldest
  {
    if |s| == 0 || s[0].id >= oldest then 0 else 1 + TrimCount(s[1..], oldest)
  }

  /** Records a new transaction of `source`. `None` stands for a null id. */
  function UpdateWithNewMessage(l: Ledger, source: ClientId, txId: Option<TxId>, oldest: Option<TxId>): (r: (Ledger, Status))
    ensures r.1 == NullArgument <==> txId.None? || oldest.None?
    ensures r.1 == OldestAfterNew <==> txId.Some? && oldest.Some? && oldest.value > txId.value
    ensures r.1 != Accepted ==> r.0 == l
    ensures r.1 == Accepted ==>
      && r.0.received == l.received + 1
      && r.0.cache.None?
      && source in r.0.buckets
      && TrimmedThenAppended(BucketOf(l.buckets, source), oldest.value,
                             Record(txId.value, r.0.received), r.0.buckets[source])
      && OthersUnchanged(l.buckets, r.0.buckets, source)
    ensures Valid(l) ==> Valid(r.0)
  {
    if txId.None? || oldest.None? then (l, NullArgument)
    else if oldest.value > txId.value then (l, OldestAfterNew)
    else
      var before := BucketOf(l.buckets, source);
      var received := l.received + 1;
      var k := TrimCount(before, oldest.value);
      var l' := Ledger(l.buckets[source := before[k..] + [Record(txId.value, received)]], received, None);
      UpdateKeepsValid(l, source, k, Record(txId.value, received));
      (l', Accepted)
  }

  /** Replacing one list by a suffix of it followed by a record whose global id
      is the next counter value keeps the ledger valid. */
  lemma UpdateKeepsValid(l: Ledger, source: ClientId, off: nat, rec: Record)
    requires off <= |BucketOf(l.buckets, source)|
    requires rec.globalId == l.received + 1
    ensures Valid(l) ==>
      Valid(Ledger(l.buckets[source := BucketOf(l.buckets, source)[off..] + [rec]], l.received + 1, None))
  {
    if Valid(l) {
      var before := BucketOf(l.buckets, source);
      var kept := before[off..];
      var b' := l.buckets[source := kept + [rec]];
      var added := Entry(source, rec.id, rec.globalId);
      forall e | Retained(b', e)
        ensures Retained(l.buckets, e) || e == added
      {
        if e.client == source && Record(e.id, e.globalId) != rec {
          var i :| 0 <= i < |kept + [rec]| && (kept + [rec])[i] == Record(e.id, e.globalId);
          assert before[off + i] == Record(e.id, e.globalId);
        }
      }
      forall i | 0 <= i < |kept|
        ensures kept[i].globalId <= l.received
      {
        assert before[off + i] == kept[i];
        assert Retained(l.buckets, Entry(source, kept[i].id, kept[i].globalId));
      }
      assert BucketAscending(kept + [rec]) by {
        forall i, j | 0 <= i < j < |kept|
          ensures kept[i].globalId < kept[j].globalId
        {
          assert before[off + i] == kept[i] && before[off + j] == kept[j];
        }
      }
    }
  }

  // ---------------------------------------------------------------------
  // removeTrackingForClient and clearAllRecords
  // ---------------------------------------------------------------------

  /** Forgets every record of `source`, invalidating the cached global list
      as every other mutation does. */
  function RemoveTrackingForClient(l: Ledger, source: ClientId): (r: Ledger)
    ensures source !in r.buckets
    ensures OthersUnchanged(l.buckets, r.buckets, source)
    ensures source !in l.buckets ==> r.buckets == l.buckets
    ensures r.received == l.received && r.cache.None?
    ensures Valid(l) ==> Valid(r)
  {
    Ledger(l.buckets - {source}, l.received, None)
  }

  /** After the removal no transaction of the forgotten client is offered for
      replay. */
  lemma ForgottenClientIsNotReplayed(l: Ledger, source: ClientId, id: TxId)
    requires Valid(l)
    ensures GetIndexToReplay(RemoveTrackingForClient(l, source), source, id).0 == -1
  {
    var r := RemoveTrackingForClient(l, source);
    assert forall e | Retained(r.buckets, e) :: e.client != source;
  }

  /** `removeTrackingForClient` as written: the stored list goes, the cached
      global list stays. */
  function RemoveTrackingForClientAsWritten(l: Ledger, source: ClientId): (r: Ledger)
    ensures source !in r.buckets
    ensures OthersUnchanged(l.buckets, r.buckets, source)
    ensures r.received == l.received && r.cache == l.cache
  {
    Ledger(l.buckets - {source}, l.received, l.cache)
  }

  /** Drops every stored list; the counter is untouched. */
  function ClearAllRecords(l: Ledger): (r: Ledger)
    ensures r.received == l.received
    ensures Valid(r)
    ensures forall e :: !Retained(r.buckets, e)
  {
    Ledger(map[], l.received, None)
  }

  /** After clearing, nothing is offered for replay. */
  lemma ClearedLedgerReplaysNothing(l: Ledger, c: ClientId, id: TxId)
    ensures GetIndexToReplay(ClearAllRecords(l), c, id).0 == -1
  {
  }

  /** Total transactions ever accepted (not the number still stored). In a
      valid ledger it bounds every stored global id from above. */
  function GetReceivedTransactionCount(l: Ledger): (n: nat)
    ensures Valid(l) ==> forall e | Retained(l.buckets, e) :: e.globalId <= n
  {
    l.received
  }

  // ---------------------------------------------------------------------
  // The global list and getIndexToReplay
  // ---------------------------------------------------------------------

  /** Every stored record, tagged with its client. */
  function RetainedEntries(b: Buckets): (es: set<Entry>)
    ensures forall e :: e in es <==> Retained(b, e)
  {
    set c, r | c in b && r in b[c] :: Entry(c, r.id, r.globalId)
  }

  /** The `TreeMap` from global id to entry filled while walking all lists. */
  function SortMap(es: set<Entry>): (m: map<nat, Entry>)
    requires forall e1, e2 | e1 in es && e2 in es && e1.globalId == e2.globalId :: e1 == e2
    ensures forall g | g in m :: m[g] in es && m[g].globalId == g
    ensures forall e | e in es :: e.globalId in m && m[e.globalId] == e
  {
    map e | e in es :: e.globalId := e
  }

  /** The values of `m` whose keys lie in `lo..hi`, in ascending key order:
      the `TreeMap`'s `values()`. */
  function InKeyOrder(m: map<nat, Entry>, lo: nat, hi: nat): (s: seq<Entry>)
    requires forall g | g in m :: m[g].globalId == g
    ensures Ascending(s)
    ensures forall i :: 0 <= i < |s| ==> lo <= s[i].globalId <= hi
    ensures forall e :: e in s <==> lo <= e.globalId <= hi && e.globalId in m && m[e.globalId] == e
    decreases if lo <= hi then hi - lo + 1 else 0
  {
    if lo > hi then []
    else
      var rest := InKeyOrder(m, lo + 1, hi);
      if lo in m then [m[lo]] + rest else rest
  }

  /** The stored lists merged by global id. */
  function GlobalList(l: Ledger): (s: seq<Entry>)
    requires Valid(l)
    ensures IsGlobalOrder(l.buckets, s)
  {
    InKeyOrder(SortMap(RetainedEntries(l.buckets)), 1, l.received)
  }

  /** `buildGlobalListIfNessessary`: fills the cache when it is absent. */
  function BuildGlobalListIfNecessary(l: Ledger): (r: Ledger)
    requires Valid(l)
    ensures Valid(r)
    ensures r.buckets == l.buckets && r.received == l.received
    ensures r.cache.Some? && IsGlobalOrder(l.buckets, r.cache.value)
    ensures l.cache.Some? ==> r.cache == l.cache
  {
    if l.cache.Some? then l else l.(cache := Some(GlobalList(l)))
  }

  predicate Matches(e: Entry, c: ClientId, id: TxId) {
    e.client == c && e.id == id
  }

  /** `k` is the position of the first entry of `list` for `(c, id)`, or -1
      when `list` has none. */
  predicate IsReplayIndex(list: seq<Entry>, c: ClientId, id: TxId, k: int) {
    && -1 <= k < |list|
    && (k == -1 <==> forall i :: 0 <= i < |list| ==> !Matches(list[i], c, id))
    && (0 <= k ==> Matches(list[k], c, id) && forall i :: 0 <= i < k ==> !Matches(list[i], c, id))
  }

  /** The scan of `getIndexToReplay` over a global list. */
  function FirstMatch(list: seq<Entry>, c: ClientId, id: TxId): (k: int)
    ensures IsReplayIndex(list, c, id, k)
  {
    if |list| == 0 then -1
    else if Matches(list[0], c, id) then 0
    else
      var k := FirstMatch(list[1..], c, id);
      if k == -1 then -1 else k + 1
  }

  /** Position of `(source, id)` in the global order, or -1; also returns the
      ledger with its cache filled. */
  function GetIndexToReplay(l: Ledger, source: ClientId, id: TxId): (r: (int, Ledger))
    requires Valid(l)
    ensures Valid(r.1) && r.1.buckets == l.buckets && r.1.received == l.received
    ensures r.1.cache.Some? && IsGlobalOrder(l.buckets, r.1.cache.value)
    ensures IsReplayIndex(r.1.cache.value, source, id, r.0)
    ensures r.0 == -1 <==> forall e | Retained(l.buckets, e) :: !Matches(e, source, id)
  {
    var l' := BuildGlobalListIfNecessary(l);
    var k := FirstMatch(l'.cache.value, source, id);
    ReplayIndexIsOrderIndependent(l.buckets, l'.cache.value, source, id, k);
    (k, l')
  }

  /** A replay index read off one global order is the index in every global
      order, and is -1 exactly when nothing stored matches. */
  lemma ReplayIndexIsOrderIndependent(b: Buckets, list: seq<Entry>, c: ClientId, id: TxId, k: int)
    requires IsGlobalOrder(b, list) && IsReplayIndex(list, c, id, k)
    ensures forall s | IsGlobalOrder(b, s) :: IsReplayIndex(s, c, id, k)
    ensures k == -1 <==> forall e | Retained(b, e) :: !Matches(e, c, id)
  {
    forall s | IsGlobalOrder(b, s) ensures IsReplayIndex(s, c, id, k) {
      GlobalOrderIsUnique(b, s, list);
    }
    if k != -1 {
      assert Retained(b, list[k]);
    } else {
      forall e | Retained(b, e) ensures !Matches(e, c, id) {
        assert e in list;
      }
    }
  }

  /** There is exactly one global order: two strictly ascending lists with the
      same elements are equal. */
  lemma GlobalOrderIsUnique(b: Buckets, s1: seq<Entry>, s2: seq<Entry>)
    requires IsGlobalOrder(b, s1) && IsGlobalOrder(b, s2)
    ensures s1 == s2
  {
    AscendingWithSameElements(s1, s2);
  }

  lemma {:induction false} AscendingWithSameElements(s1: seq<Entry>, s2: seq<Entry>)
    requires Ascending(s1) && Ascending(s2)
    requires forall e :: e in s1 <==> e in s2
    ensures s1 == s2
    decreases |s1|
  {
    if |s1| == 0 {
      EmptyWithoutElements(s2);
    } else {
      assert s1[0] in s2;
      var j :| 0 <= j < |s2| && s2[j] == s1[0];
      assert s2[0] in s1;
      var i :| 0 <= i < |s1| && s1[i] == s2[0];
      assert i == 0 && j == 0;
      forall e ensures e in s1[1..] <==> e in s2[1..] {
        TailMembers(s1, e);
        TailMembers(s2, e);
      }
      AscendingWithSameElements(s1[1..], s2[1..]);
      assert s1 == [s1[0]] + s1[1..];
      assert s2 == [s2[0]] + s2[1..];
    }
  }

  /** In a strictly ascending list the tail holds every element but the head. */
  lemma TailMembers(s: seq<Entry>, e: Entry)
    requires Ascending(s) && 0 < |s|
    ensures e in s[1..] <==> e in s && e != s[0]
  {
    if e in s[1..] {
      var p :| 0 <= p < |s[1..]| && s[1..][p] == e;
      assert s[p + 1] == e;
    }
    if e in s && e != s[0] {
      var p :| 0 <= p < |s| && s[p] == e;
      assert s[1..][p - 1] == e;
    }
  }

  lemma EmptyWithoutElements(s: seq<Entry>)
    ensures (forall e :: e !in s) ==> s == []
  {
    if s != [] {
      assert s[0] in s;
    }
  }

  // ---------------------------------------------------------------------
  // Sequences of calls
  // ---------------------------------------------------------------------

  /** A call on the ledger's public interface. */
  datatype Call =
    | Update(source: ClientId, txId: Option<TxId>, oldest: Option<TxId>)
    | Forget(source: ClientId)  // the corrected removal; see RemoveTrackingForClientAsWritten
    | Clear
    | Replay(source: ClientId, id: TxId)

  function Step(l: Ledger, call: Call): (r: Ledger)
    requires Valid(l)
    ensures Valid(r)
  {
    match call
    case Update(s, t, o) => UpdateWithNewMessage(l, s, t, o).0
    case Forget(s) => RemoveTrackingForClient(l, s)
    case Clear => ClearAllRecords(l)
    case Replay(s, id) => GetIndexToReplay(l, s, id).1
  }

  function Run(l: Ledger, calls: seq<Call>): (r: Ledger)
    requires Valid(l)
    ensures Valid(r)
    decreases |calls|
  {
    if |calls| == 0 then l else Run(Step(l, calls[0]), calls[1..])
  }

  /** Whether `updateWithNewMessage` accepts these arguments. */
  predicate IsAcceptedUpdate(call: Call) {
    call.Update? && call.txId.Some? && call.oldest.Some? && call.oldest.value <= call.txId.value
  }

  function AcceptedUpdates(calls: seq<Call>): nat {
    if |calls| == 0 then 0
    else (if IsAcceptedUpdate(calls[0]) then 1 else 0) + AcceptedUpdates(calls[1..])
  }

  /** The counter grows by exactly the number of accepted updates, whatever
      else is called in between; in particular it never decreases. */
  lemma {:induction false} ReceivedCountsAcceptedUpdates(l: Ledger, calls: seq<Call>)
    requires Valid(l)
    ensures Run(l, calls).received == l.received + AcceptedUpdates(calls)
    ensures l.received <= Run(l, calls).received
    decreases |calls|
  {
    if |calls| > 0 {
      ReceivedCountsAcceptedUpdates(Step(l, calls[0]), calls[1..]);
    }
  }

  // ---------------------------------------------------------------------
  // Worked scenarios
  // ---------------------------------------------------------------------

  /** A list holding ids 1..4 updated with id 5 and oldest 3 keeps 3 and 4 and
      appends 5: a record equal to the oldest still needed is not trimmed. */
  lemma TrimKeepsOldestStillNeeded(c: ClientId)
    ensures
      var l := Ledger(map[c := [Record(1, 1), Record(2, 2), Record(3, 3), Record(4, 4)]], 4, None);
      UpdateWithNewMessage(l, c, Some(5), Some(3)).0.buckets[c] == [Record(3, 3), Record(4, 4), Record(5, 5)]
  {
    var before := [Record(1, 1), Record(2, 2), Record(3, 3), Record(4, 4)];
    assert TrimCount(before, 3) == 2 by {
      assert before[1..][1..] == [Record(3, 3), Record(4, 4)];
    }
  }

  /** Client `a` records 1, client `b` records 1, client `a` records 2. */
  function Interleaved(a: ClientId, b: ClientId): Ledger {
    var l1 := UpdateWithNewMessage(Open(map[], None), a, Some(1), Some(1)).0;
    var l2 := UpdateWithNewMessage(l1, b, Some(1), Some(1)).0;
    UpdateWithNewMessage(l2, a, Some(2), Some(1)).0
  }

  /** An accepted update, spelled out: the new counter value, the cache
      dropped, and the source's list replaced by its trimmed suffix followed
      by the new record. */
  lemma AcceptedUpdateShape(l: Ledger, source: ClientId, tx: TxId, oldest: TxId)
    requires oldest <= tx
    ensures
      var before := BucketOf(l.buckets, source);
      UpdateWithNewMessage(l, source, Some(tx), Some(oldest))
        == (Ledger(l.buckets[source := before[TrimCount(before, oldest)..] + [Record(tx, l.received + 1)]],
                   l.received + 1, None),
            Accepted)
  {
  }

  lemma InterleavedFirst(a: ClientId)
    ensures UpdateWithNewMessage(Open(map[], None), a, Some(1), Some(1)).0
         == Ledger(map[a := [Record(1, 1)]], 1, None)
  {
    var l0 := Open(map[], None);
    AcceptedUpdateShape(l0, a, 1, 1);
    assert BucketOf(l0.buckets, a) == [];
    assert TrimCount([], 1) == 0;
    assert [][0..] + [Record(1, 1)] == [Record(1, 1)];
  }

  lemma InterleavedSecond(a: ClientId, b: ClientId)
    requires a != b
    ensures UpdateWithNewMessage(Ledger(map[a := [Record(1, 1)]], 1, None), b, Some(1), Some(1)).0
         == Ledger(map[a := [Record(1, 1)], b := [Record(1, 2)]], 2, None)
  {
    var l1 := Ledger(map[a := [Record(1, 1)]], 1, None);
    AcceptedUpdateShape(l1, b, 1, 1);
    assert b !in l1.buckets;
    assert BucketOf(l1.buckets, b) == [];
    assert TrimCount([], 1) == 0;
    assert [][0..] + [Record(1, 2)] == [Record(1, 2)];
  }

  lemma InterleavedThird(a: ClientId, b: ClientId)
    requires a != b
    ensures UpdateWithNewMessage(Ledger(map[a := [Record(1, 1)], b := [Record(1, 2)]], 2, None), a, Some(2), Some(1)).0
         == Ledger(map[a := [Record(1, 1), Record(2, 3)], b := [Record(1, 2)]], 3, None)
  {
    var kept := [Record(1, 1)];
    assert TrimCount(kept, 1) == 0;
    assert kept[0..] == kept;
    var after := kept + [Record(2, 3)];
    assert after == [Record(1, 1), Record(2, 3)];
    var l2 := Ledger(map[a := kept, b := [Record(1, 2)]], 2, None);
    assert BucketOf(l2.buckets, a) == kept;
    assert l2.buckets[a := after] == map[a := after, b := [Record(1, 2)]];
    AcceptedUpdateShape(l2, a, 2, 1);
  }

  lemma InterleavedBuckets(a: ClientId, b: ClientId)
    requires a != b
    ensures Valid(Interleaved(a, b))
    ensures Interleaved(a, b).buckets == map[a := [Record(1, 1), Record(2, 3)], b := [Record(1, 2)]]
  {
    FreshLedger(a, 1);
    InterleavedFirst(a);
    InterleavedSecond(a, b);
    InterleavedThird(a, b);
  }

  /** Whatever global order a replay index is read from, `getIndexToReplay`
      returns that index. */
  lemma ReplayIndexFromOrder(l: Ledger, order: seq<Entry>, c: ClientId, id: TxId, k: int)
    requires Valid(l) && IsGlobalOrder(l.buckets, order) && IsReplayIndex(order, c, id, k)
    ensures GetIndexToReplay(l, c, id).0 == k
  {
    var r := GetIndexToReplay(l, c, id);
    GlobalOrderIsUnique(l.buckets, order, r.1.cache.value);
  }

  /** The ledger is persisted so that a restarted server replays in the
      original order: reopening the stored lists and counter gives a valid
      ledger with the same count and the same answer to every replay query. */
  lemma RestartKeepsReplay(l: Ledger, c: ClientId, id: TxId)
    requires Valid(l)
    ensures Valid(Open(l.buckets, Some(l.received)))
    ensures GetReceivedTransactionCount(Open(l.buckets, Some(l.received))) == GetReceivedTransactionCount(l)
    ensures GetIndexToReplay(Open(l.buckets, Some(l.received)), c, id).0 == GetIndexToReplay(l, c, id).0
  {
    var r := GetIndexToReplay(l, c, id);
    ReplayIndexFromOrder(Open(l.buckets, Some(l.received)), r.1.cache.value, c, id, r.0);
  }

  lemma InterleavedOrder(buckets: Buckets, a: ClientId, b: ClientId)
    requires a != b
    requires buckets == map[a := [Record(1, 1), Record(2, 3)], b := [Record(1, 2)]]
    ensures IsGlobalOrder(buckets, [Entry(a, 1, 1), Entry(b, 1, 2), Entry(a, 2, 3)])
  {
    var order := [Entry(a, 1, 1), Entry(b, 1, 2), Entry(a, 2, 3)];
    forall e ensures e in order <==> Retained(buckets, e) {
      if Retained(buckets, e) {
        var rec := Record(e.id, e.globalId);
        if e.client == a {
          assert rec == Record(1, 1) || rec == Record(2, 3);
        } else {
          assert rec == Record(1, 2);
        }
      }
    }
  }

  lemma InterleavedIndices(a: ClientId, b: ClientId)
    requires a != b
    ensures IsReplayIndex([Entry(a, 1, 1), Entry(b, 1, 2), Entry(a, 2, 3)], a, 1, 0)
    ensures IsReplayIndex([Entry(a, 1, 1), Entry(b, 1, 2), Entry(a, 2, 3)], b, 1, 1)
    ensures IsReplayIndex([Entry(a, 1, 1), Entry(b, 1, 2), Entry(a, 2, 3)], a, 2, 2)
  {
  }

  /** Stored lists a:[1, 2] and b:[1] holding global ids 1, 3 and 2 replay as
      a:1, b:1, a:2; `InterleavedBuckets` shows that the calls a:1, b:1, a:2
      leave exactly these lists, so replay follows arrival across clients. */
  lemma InterleavedClientsReplayInArrivalOrder(l: Ledger, a: ClientId, b: ClientId)
    requires a != b && Valid(l)
    requires l.buckets == map[a := [Record(1, 1), Record(2, 3)], b := [Record(1, 2)]]
    ensures GetIndexToReplay(l, a, 1).0 == 0
    ensures GetIndexToReplay(l, b, 1).0 == 1
    ensures GetIndexToReplay(l, a, 2).0 == 2
  {
    var order := [Entry(a, 1, 1), Entry(b, 1, 2), Entry(a, 2, 3)];
    InterleavedOrder(l.buckets, a, b);
    InterleavedIndices(a, b);
    ReplayIndexFromOrder(l, order, a, 1, 0);
    ReplayIndexFromOrder(l, order, b, 1, 1);
    ReplayIndexFromOrder(l, order, a, 2, 2);
  }

  /** A client forgotten and then heard from again starts from an empty list:
      nothing recorded before the forget comes back. */
  lemma ForgetThenUpdateStartsAfresh(l: Ledger, c: ClientId, tx: TxId, oldest: TxId)
    requires oldest <= tx
    ensures UpdateWithNewMessage(RemoveTrackingForClient(l, c), c, Some(tx), Some(oldest)).0.buckets[c]
            == [Record(tx, l.received + 1)]
  {
    var l1 := RemoveTrackingForClient(l, c);
    assert BucketOf(l1.buckets, c) == [];
    var after := UpdateWithNewMessage(l1, c, Some(tx), Some(oldest)).0.buckets[c];
    assert |after| == 1 && after[0] == Record(tx, l.received + 1);
  }

  /** The cache left by the as-written `removeTrackingForClient` still places
      a forgotten client's transaction in the replay order, although the stored
      lists no longer hold it; the corrected removal gives -1. */
  lemma AsWrittenRemoveReplaysForgottenClient(l: Ledger, a: ClientId)
    requires Valid(l) && l.cache.Some?
    requires a in l.buckets && 0 < |l.buckets[a]|
    ensures
      var stale := RemoveTrackingForClientAsWritten(l, a);
      && stale.cache.Some?
      && FirstMatch(stale.cache.value, a, l.buckets[a][0].id) >= 0
      && (forall e | Retained(stale.buckets, e) :: e.client != a)
      && !Valid(stale)
    ensures GetIndexToReplay(RemoveTrackingForClient(l, a), a, l.buckets[a][0].id).0 == -1
  {
    var r := l.buckets[a][0];
    var e := Entry(a, r.id, r.globalId);
    var stale := RemoveTrackingForClientAsWritten(l, a);
    assert e in stale.cache.value by {
      assert Retained(l.buckets, e);
    }
    assert FirstMatch(stale.cache.value, a, r.id) >= 0;
    assert !Valid(stale) by {
      assert !Retained(stale.buckets, e);
    }
    ForgottenClientIsNotReplayed(l, a, r.id);
  }

  /** Such a ledger is reached by one update followed by one replay query. */
  lemma StaleCacheIsReachable(a: ClientId)
    ensures
      var l1 := UpdateWithNewMessage(Open(map[], None), a, Some(1), Some(1)).0;
      && l1 == Ledger(map[a := [Record(1, 1)]], 1, None)
      && Valid(l1)
      && var l := GetIndexToReplay(l1, a, 1).1;
         l.cache.Some? && a in l.buckets && 0 < |l.buckets[a]|
  {
    FreshLedger(a, 1);
    InterleavedFirst(a);
  }
}
