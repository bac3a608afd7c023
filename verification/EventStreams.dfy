/** Events and the streams that carry them: UncommittedEventStream and CommittedEventStream. */
module EventStreams {
  import opened Common

  type Guid = nat
  type Payload = string

  datatype UncommittedEvent = UncommittedEvent(sourceId: Guid, sequence: int, initialVersion: int, payload: Payload)

  datatype CommittedEvent = CommittedEvent(sourceId: Guid, sequence: int, payload: Payload)

  function Committed(e: UncommittedEvent): CommittedEvent {
    CommittedEvent(e.sourceId, e.sequence, e.payload)
  }

  function AllCommitted(es: seq<UncommittedEvent>): (cs: seq<CommittedEvent>)
    ensures |cs| == |es| && forall i | 0 <= i < |es| :: cs[i] == Committed(es[i])
  {
    seq(|es|, i requires 0 <= i < |es| => Committed(es[i]))
  }

  // ----- Committed streams -----

  /** One source, consecutive sequence numbers. */
  predicate IsStream(sourceId: Guid, events: seq<CommittedEvent>) {
    forall i | 0 <= i < |events| :: events[i].sourceId == sourceId && events[i].sequence == events[0].sequence + i
  }

  datatype StreamError = WrongSource(position: nat) | WrongSequence(position: nat)

  datatype CommittedEventStream = CommittedEventStream(sourceId: Guid, events: seq<CommittedEvent>,
                                                       fromVersion: int, toVersion: int)

  datatype StreamResult = Stream(stream: CommittedEventStream) | Invalid(error: StreamError)

  /** The stream a valid list of events makes; an empty one has no versions. */
  function StreamOf(sourceId: Guid, events: seq<CommittedEvent>): CommittedEventStream {
    if events == [] then CommittedEventStream(sourceId, [], 0, 0)
    else CommittedEventStream(sourceId, events, events[0].sequence, events[|events| - 1].sequence)
  }

  /** ValidateSingleEvent. */
  function EventError(e: CommittedEvent, position: nat, sourceId: Guid, expected: int): Option<StreamError> {
    if e.sourceId != sourceId then Some(WrongSource(position))
    else if e.sequence != expected then Some(WrongSequence(position))
    else None
  }

  /** The constructor: it accepts exactly the streams, and otherwise reports the first offending position. */
  method NewCommittedEventStream(sourceId: Guid, events: seq<CommittedEvent>) returns (r: StreamResult)
    ensures r.Stream? <==> IsStream(sourceId, events)
    ensures r.Stream? ==> r.stream == StreamOf(sourceId, events)
    ensures r.Stream? ==> r.stream.sourceId == sourceId && r.stream.events == events
    ensures r.Stream? && events == [] ==> r.stream.fromVersion == r.stream.toVersion == 0
    ensures r.Stream? && events != [] ==>
      && (exists e | e in events :: e.sequence == r.stream.fromVersion)
      && (exists e | e in events :: e.sequence == r.stream.toVersion)
      && forall e | e in events :: r.stream.fromVersion <= e.sequence <= r.stream.toVersion
    ensures r.Invalid? ==> r.error.position < |events| && IsStream(sourceId, events[..r.error.position])
                           && !IsStream(sourceId, events[..r.error.position + 1])
    ensures r.Invalid? ==> (r.error.WrongSource? <==> events[r.error.position].sourceId != sourceId)
  {
    if events == [] {
      return Stream(StreamOf(sourceId, events));
    }
    var position := 0;
    while position < |events|
      invariant 0 <= position <= |events|
      invariant forall i | 0 <= i < position ::
        events[i].sourceId == sourceId && events[i].sequence == events[0].sequence + i
    {
      var error := EventError(events[position], position, sourceId, events[0].sequence + position);
      if error.Some? {
        var prefix := events[..position + 1];
        assert prefix[position] == events[position] && prefix[0] == events[0];
        return Invalid(error.value);
      }
      position := position + 1;
    }
    var toVersion := LargestSequence(events);
    r := Stream(CommittedEventStream(sourceId, events, events[0].sequence, toVersion));
  }

  /** OrderByDescending(...).First(). */
  method LargestSequence(events: seq<CommittedEvent>) returns (largest: int)
    requires events != []
    ensures exists e | e in events :: e.sequence == largest
    ensures forall e | e in events :: e.sequence <= largest
  {
    largest := events[0].sequence;
    for i := 1 to |events|
      invariant exists e | e in events :: e.sequence == largest
      invariant forall j | 0 <= j < i :: events[j].sequence <= largest
    {
      if events[i].sequence > largest {
        largest := events[i].sequence;
      }
    }
  }

  // ----- Uncommitted streams -----

  datatype SourceInformation = SourceInformation(id: Guid, initialVersion: int, currentVersion: int)

  predicate SingleSource(es: seq<UncommittedEvent>) {
    forall i | 0 <= i < |es| :: es[i].sourceId == es[0].sourceId
  }

  function OfSource(es: seq<UncommittedEvent>, id: Guid): (r: seq<UncommittedEvent>)
    ensures |r| <= |es|
  {
    if es == [] then []
    else OfSource(es[..|es| - 1], id) + if es[|es| - 1].sourceId == id then [es[|es| - 1]] else []
  }

  function OtherSources(es: seq<UncommittedEvent>, id: Guid): (r: seq<UncommittedEvent>)
    ensures |r| <= |es|
  {
    if es == [] then []
    else OtherSources(es[..|es| - 1], id) + if es[|es| - 1].sourceId != id then [es[|es| - 1]] else []
  }

  lemma {:induction false} SourceMembers(es: seq<UncommittedEvent>, id: Guid, e: UncommittedEvent)
    ensures e in OfSource(es, id) <==> e in es && e.sourceId == id
    ensures e in OtherSources(es, id) <==> e in es && e.sourceId != id
  {
    if es != [] {
      SourceMembers(es[..|es| - 1], id, e);
      assert es == es[..|es| - 1] + [es[|es| - 1]];
    }
  }

  /** Splitting by source keeps every event as often as it occurs. */
  lemma {:induction false} SourcesSplit(es: seq<UncommittedEvent>, id: Guid)
    ensures multiset(OfSource(es, id)) + multiset(OtherSources(es, id)) == multiset(es)
  {
    if es != [] {
      var front, last := es[..|es| - 1], es[|es| - 1];
      SourcesSplit(front, id);
      OneMoreOf(es, front, last);
      if last.sourceId == id {
        OneMoreOf(OfSource(es, id), OfSource(front, id), last);
      } else {
        OneMoreOf(OtherSources(es, id), OtherSources(front, id), last);
      }
    }
  }

  lemma OneMoreOf(es: seq<UncommittedEvent>, front: seq<UncommittedEvent>, last: UncommittedEvent)
    requires es == front + [last]
    ensures multiset(es) == multiset(front) + multiset{last}
  {
  }

  /** What comes earlier in the stream comes earlier among its source's events. */
  lemma {:induction false} SourcesKeepOrder(a: seq<UncommittedEvent>, b: seq<UncommittedEvent>, id: Guid)
    ensures OfSource(a + b, id) == OfSource(a, id) + OfSource(b, id)
  {
    if b == [] {
      assert a + b == a;
    } else {
      assert (a + b)[..|a + b| - 1] == a + b[..|b| - 1];
      SourcesKeepOrder(a, b[..|b| - 1], id);
    }
  }

  lemma OneMoreSource(es: seq<UncommittedEvent>, e: UncommittedEvent)
    ensures SingleSource(es + [e]) <==> SingleSource(es) && (es != [] ==> es[0].sourceId == e.sourceId)
  {
    var longer := es + [e];
    assert longer[|es|] == e && forall i | 0 <= i < |es| :: longer[i] == es[i];
  }

  function InformationOf(es: seq<UncommittedEvent>): map<Guid, SourceInformation> {
    if es == [] then map[]
    else
      var last := es[|es| - 1];
      var information := SourceInformation(last.sourceId, last.initialVersion, last.sequence);
      InformationOf(es[..|es| - 1])[last.sourceId := information]
  }

  /** The information of a source is that of its latest event. */
  lemma {:induction false} InformationIsLatest(es: seq<UncommittedEvent>, id: Guid)
    ensures id in InformationOf(es) <==> OfSource(es, id) != []
    ensures id in InformationOf(es) ==>
      var last := OfSource(es, id)[|OfSource(es, id)| - 1];
      InformationOf(es)[id] == SourceInformation(id, last.initialVersion, last.sequence)
  {
    if es != [] {
      InformationIsLatest(es[..|es| - 1], id);
    }
  }

  class UncommittedEventStream {
    var singleSource: Option<Guid>
    var hasSingleSource: bool
    var events: seq<UncommittedEvent>
    var eventSourceInformation: map<Guid, SourceInformation>

    /** The flag, the single source and the per-source information agree with the events. */
    ghost predicate Valid()
      reads this
    {
      && (hasSingleSource <==> SingleSource(events))
      && (singleSource == if events == [] then None else Some(events[0].sourceId))
      && eventSourceInformation == InformationOf(events)
    }

    constructor ()
      ensures Valid() && events == []
    {
      singleSource, hasSingleSource, events, eventSourceInformation := None, true, [], map[];
    }

    method Append(e: UncommittedEvent)
      requires Valid()
      modifies this
      ensures Valid() && events == old(events) + [e]
    {
      OneMoreSource(events, e);
      if |events| > 0 && hasSingleSource {
        if events[0].sourceId != e.sourceId {
          hasSingleSource := false;
        }
      } else if |events| == 0 {
        singleSource := Some(e.sourceId);
      }
      ghost var before := events;
      events := events + [e];
      assert events[..|events| - 1] == before;
      UpdateEventSourceInformation(e);
    }

    method UpdateEventSourceInformation(e: UncommittedEvent)
      modifies `eventSourceInformation
      ensures eventSourceInformation ==
              old(eventSourceInformation)[e.sourceId := SourceInformation(e.sourceId, e.initialVersion, e.sequence)]
    {
      eventSourceInformation :=
        eventSourceInformation[e.sourceId := SourceInformation(e.sourceId, e.initialVersion, e.sequence)];
    }
  }
}
