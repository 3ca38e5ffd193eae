/** The order in which synchronization events are meant to follow one another
    on a stream, as suggested by the begin/end pairs among the message types.
    The factories do not enforce this order; this module states it separately
    and relates it to the factories' positive-key rule. */
module SyncProtocol {
  import opened Common
  import opened Identifiers
  import opened PassiveSync

  datatype State = Init | Streaming | InEntity | InKey | Done

  /** The state after one more event, or `None` when the event is not allowed
      where it arrives. */
  function Step(s: State, u: SyncUnit): (r: Option<State>)
    ensures r.Some? ==> WellFormedUnit(u)
    ensures r.Some? ==> s != Done
  {
    match (s, u)
    case (Init, StreamBegin) => Some(Streaming)
    case (Streaming, EntityBegin(_, _, _, _)) => Some(InEntity)
    case (Streaming, StreamEnd(_)) => Some(Done)
    case (InEntity, KeyBegin(_, _, k)) => if k > 0 then Some(InKey) else None
    case (InEntity, EntityEnd(_, _)) => Some(Streaming)
    case (InKey, KeyPayload(_, _, k, _)) => if k > 0 then Some(InKey) else None
    case (InKey, KeyEnd(_, _, k)) => if k > 0 then Some(InEntity) else None
    case (_, _) => None
  }

  /** The state after a whole sequence of events, `None` at the first event
      that is out of place. */
  function RunFrom(s: State, units: seq<SyncUnit>): Option<State>
    decreases |units|
  {
    if |units| == 0 then Some(s)
    else
      match Step(s, units[0])
      case None => None
      case Some(t) => RunFrom(t, units[1..])
  }

  /** A complete, well-nested synchronization stream. */
  predicate Accepts(units: seq<SyncUnit>) {
    RunFrom(Init, units) == Some(Done)
  }

  /** Every event of a stream that runs without error is one the factories
      can build, so the stream can be sent. */
  lemma {:induction false} RunnableUnitsAreWellFormed(s: State, units: seq<SyncUnit>)
    requires RunFrom(s, units).Some?
    ensures forall u | u in units :: WellFormedUnit(u)
    decreases |units|
  {
    if |units| > 0 {
      var t := Step(s, units[0]);
      RunnableUnitsAreWellFormed(t.value, units[1..]);
      assert units == [units[0]] + units[1..];
    }
  }

  /** Nothing follows the stream end. */
  lemma {:induction false} NothingAfterDone(units: seq<SyncUnit>)
    requires 0 < |units|
    ensures RunFrom(Done, units) == None
  {
  }

  /** An accepted stream opens with the stream start and closes with the
      stream end. */
  lemma {:induction false} AcceptedStreamIsBracketed(units: seq<SyncUnit>)
    requires Accepts(units)
    ensures 2 <= |units| && units[0] == StreamBegin && units[|units| - 1].StreamEnd?
  {
    EndsWithStreamEnd(Init, units);
  }

  lemma {:induction false} EndsWithStreamEnd(s: State, units: seq<SyncUnit>)
    requires s != Done
    requires RunFrom(s, units) == Some(Done)
    ensures 0 < |units| && units[|units| - 1].StreamEnd?
    ensures s == Init ==> 2 <= |units| && units[0] == StreamBegin
    decreases |units|
  {
    var t := Step(s, units[0]).value;
    if t != Done {
      EndsWithStreamEnd(t, units[1..]);
    }
  }

  /** Running a stream is one step followed by running the rest. */
  lemma RunFromCons(s: State, u: SyncUnit, rest: seq<SyncUnit>)
    ensures RunFrom(s, [u] + rest) == if Step(s, u).None? then None else RunFrom(Step(s, u).value, rest)
  {
    assert ([u] + rest)[0] == u;
    assert ([u] + rest)[1..] == rest;
  }

  /** A stream with one entity holding one key is accepted. */
  lemma OneEntityStreamIsAccepted(e: EntityId, b: Bytes)
    ensures Accepts([StreamBegin, EntityBegin(e, 1, None, true), KeyBegin(e, 1, 1),
                     KeyPayload(e, 1, 1, Some(b)), KeyEnd(e, 1, 1), EntityEnd(e, 1), StreamEnd(Some([]))])
  {
    var t6 := [StreamEnd(Some([]))];
    assert RunFrom(Streaming, t6) == Some(Done) by {
      RunFromCons(Streaming, StreamEnd(Some([])), []);
    }
    var t5 := [EntityEnd(e, 1)] + t6;
    assert RunFrom(InEntity, t5) == Some(Done) by {
      RunFromCons(InEntity, EntityEnd(e, 1), t6);
    }
    var t4 := [KeyEnd(e, 1, 1)] + t5;
    assert RunFrom(InKey, t4) == Some(Done) by {
      RunFromCons(InKey, KeyEnd(e, 1, 1), t5);
    }
    var t3 := [KeyPayload(e, 1, 1, Some(b))] + t4;
    assert RunFrom(InKey, t3) == Some(Done) by {
      RunFromCons(InKey, KeyPayload(e, 1, 1, Some(b)), t4);
    }
    var t2 := [KeyBegin(e, 1, 1)] + t3;
    assert RunFrom(InEntity, t2) == Some(Done) by {
      RunFromCons(InEntity, KeyBegin(e, 1, 1), t3);
    }
    var t1 := [EntityBegin(e, 1, None, true)] + t2;
    assert RunFrom(Streaming, t1) == Some(Done) by {
      RunFromCons(Streaming, EntityBegin(e, 1, None, true), t2);
    }
    var t0 := [StreamBegin] + t1;
    assert RunFrom(Init, t0) == Some(Done) by {
      RunFromCons(Init, StreamBegin, t1);
    }
    assert t0 == [StreamBegin, EntityBegin(e, 1, None, true), KeyBegin(e, 1, 1),
                  KeyPayload(e, 1, 1, Some(b)), KeyEnd(e, 1, 1), EntityEnd(e, 1), StreamEnd(Some([]))];
  }

  /** The same stream with key 0 is rejected: only positive keys are synced. */
  lemma ZeroKeyStreamIsRejected(e: EntityId, b: Bytes)
    ensures !Accepts([StreamBegin, EntityBegin(e, 1, None, true), KeyBegin(e, 1, 0),
                      KeyPayload(e, 1, 1, Some(b)), KeyEnd(e, 1, 1), EntityEnd(e, 1), StreamEnd(Some([]))])
  {
    var t3 := [KeyPayload(e, 1, 1, Some(b)), KeyEnd(e, 1, 1), EntityEnd(e, 1), StreamEnd(Some([]))];
    var t2 := [KeyBegin(e, 1, 0)] + t3;
    RunFromCons(InEntity, KeyBegin(e, 1, 0), t3);
    var t1 := [EntityBegin(e, 1, None, true)] + t2;
    RunFromCons(Streaming, EntityBegin(e, 1, None, true), t2);
    var t0 := [StreamBegin] + t1;
    RunFromCons(Init, StreamBegin, t1);
    assert RunFrom(Init, t0) == None;
    assert t0 == [StreamBegin, EntityBegin(e, 1, None, true), KeyBegin(e, 1, 0),
                  KeyPayload(e, 1, 1, Some(b)), KeyEnd(e, 1, 1), EntityEnd(e, 1), StreamEnd(Some([]))];
  }

  /** An entity end with no entity begun is rejected. */
  lemma StrayEntityEndIsRejected(e: EntityId)
    ensures !Accepts([StreamBegin, EntityEnd(e, 1), StreamEnd(Some([]))])
  {
    var t2 := [StreamEnd(Some([]))];
    var t1 := [EntityEnd(e, 1)] + t2;
    RunFromCons(Streaming, EntityEnd(e, 1), t2);
    var t0 := [StreamBegin] + t1;
    RunFromCons(Init, StreamBegin, t1);
    assert t0 == [StreamBegin, EntityEnd(e, 1), StreamEnd(Some([]))];
  }
}
