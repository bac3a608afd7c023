/** MongoDBEventStore as the class it is, and what its methods do when nothing interferes. */
module MongoClass {
  import opened EventStreams
  import opened MongoStore

  class MongoDBEventStore {
    var versions: map<Guid, int>
    var counter: int
    var events: seq<DomainEvent>

    function View(): Db
      reads this
    {
      Db(versions, counter, events)
    }

    constructor ()
      ensures View() == Db(map[], 0, [])
    {
      versions, counter, events := map[], 0, [];
    }

    /** False is the driver's duplicate-key exception. */
    method AddEventSource(id: Guid, initialVersion: int) returns (inserted: bool)
      modifies this
      ensures inserted <==> MongoStore.AddEventSource(old(View()), id, initialVersion).Some?
      ensures View() ==
          if inserted then MongoStore.AddEventSource(old(View()), id, initialVersion).value else old(View())
    {
      if id in versions {
        return false;
      }
      versions := versions[id := initialVersion];
      inserted := true;
    }

    method UpdateEventSourceVersion(id: Guid, newVersion: int, initialVersion: int) returns (modified: bool)
      modifies this
      ensures modified <==> Updates(old(View()), id, newVersion, initialVersion)
      ensures View() == UpdateVersion(old(View()), id, newVersion, initialVersion)
    {
      modified := false;
      if id in versions && versions[id] == initialVersion {
        modified := newVersion != initialVersion;
        versions := versions[id := newVersion];
      }
      assert !modified ==> View() == old(View()) by {
        assert !modified ==> versions == old(versions);
      }
    }

    method GetNextSequence() returns (sequence: int)
      modifies this
      ensures View() == NextSequence(old(View())) && sequence == old(counter) + 1
    {
      counter := counter + 1;
      sequence := counter;
    }

    method SaveEvents(es: seq<UncommittedEvent>)
      modifies this
      ensures View() == MongoStore.SaveEvents(old(View()), es)
    {
      var i := 0;
      while i < |es|
        invariant 0 <= i <= |es|
        invariant View() == MongoStore.SaveEvents(old(View()), es[..i])
      {
        var sequence := GetNextSequence();
        events := events + [DomainEvent(sequence, Committed(es[i]))];
        assert es[..i + 1][..i] == es[..i];
        i := i + 1;
      }
      assert es[..i] == es;
    }

    method StoreEventsFromSource(es: seq<UncommittedEvent>) returns (outcome: Outcome)
      requires es != []
      modifies this
      ensures View() == StoreGroup(old(View()), es).db && outcome == StoreGroup(old(View()), es).outcome
    {
      var id, newVersion, initialVersion := es[0].sourceId, NewVersion(es), es[0].initialVersion;
      var currentVersion := GetVersion(View(), id);
      if currentVersion.None? {
        var inserted := AddEventSource(id, newVersion);
        if !inserted {
          return DuplicateKey;
        }
      } else if currentVersion.value != initialVersion {
        return ConcurrencyException(id, newVersion);
      } else {
        var updated := UpdateEventSourceVersion(id, newVersion, initialVersion);
        if !updated {
          return ConcurrencyException(id, newVersion);
        }
      }
      SaveEvents(es);
      outcome := Stored;
    }

    method StoreMultipleSources(es: seq<UncommittedEvent>) returns (outcome: Outcome)
      modifies this
      ensures View() == Store(old(View()), es).db && outcome == Store(old(View()), es).outcome
    {
      var groups := GroupBySource(es);
      outcome := Stored;
      var i := 0;
      while i < |groups|
        invariant 0 <= i <= |groups| && outcome == Stored
        invariant StoreGroups(old(View()), groups) == StoreGroups(View(), groups[i..])
      {
        outcome := StoreEventsFromSource(groups[i]);
        if outcome != Stored {
          return;
        }
        i := i + 1;
      }
    }

    /** Both branches do what Store says; an empty stream does nothing. */
    method StoreStream(stream: UncommittedEventStream) returns (outcome: Outcome)
      requires stream.Valid()
      modifies this
      ensures View() == Store(old(View()), stream.events).db && outcome == Store(old(View()), stream.events).outcome
    {
      if stream.events == [] {
        return Stored;
      }
      if stream.hasSingleSource {
        SingleSourceIsOneGroup(View(), stream.events);
        outcome := StoreEventsFromSource(stream.events);
      } else {
        outcome := StoreMultipleSources(stream.events);
      }
    }

    /** The events found are sorted and must make a stream. */
    method ReadFrom(id: Guid, minVersion: int, maxVersion: int) returns (r: StreamResult)
      ensures var es := OrderBySequence(InRange(StoredEvents(events, id), minVersion, maxVersion));
        (r.Stream? <==> IsStream(id, es)) && (r.Stream? ==> r.stream == StreamOf(id, es))
    {
      var found := [];
      var i := 0;
      while i < |events|
        invariant 0 <= i <= |events|
        invariant found == InRange(StoredEvents(events[..i], id), minVersion, maxVersion)
      {
        var e := events[i].event;
        ghost var before := events[..i];
        assert events[..i + 1] == before + [events[i]];
        FoundOneMore(before, events[i], id, minVersion, maxVersion);
        if e.sourceId == id && minVersion <= e.sequence <= maxVersion {
          found := found + [e];
        }
        i := i + 1;
      }
      assert events[..i] == events;
      r := NewCommittedEventStream(id, OrderBySequence(found));
    }
  }

  lemma FoundOneMore(events: seq<DomainEvent>, d: DomainEvent, id: Guid, minVersion: int, maxVersion: int)
    ensures InRange(StoredEvents(events + [d], id), minVersion, maxVersion) ==
            InRange(StoredEvents(events, id), minVersion, maxVersion) +
              if d.event.sourceId == id && minVersion <= d.event.sequence <= maxVersion then [d.event] else []
  {
    assert (events + [d])[..|events|] == events;
    var before := StoredEvents(events, id);
    if d.event.sourceId == id {
      assert (before + [d.event])[..|before|] == before;
    } else {
      assert StoredEvents(events + [d], id) == before;
    }
  }
}
