/** MongoDBEventStore when no one else writes: the collections, the operations on them, and Store as a whole. */
module MongoStore {
  import opened Common
  import opened EventStreams

  datatype DomainEvent = DomainEvent(sequentialId: int, event: CommittedEvent)

  /** The EventSources collection (id to version), the event sequence, and the DomainEvents collection. */
  datatype Db = Db(versions: map<Guid, int>, counter: int, events: seq<DomainEvent>)

  datatype Outcome = Stored | ConcurrencyException(id: Guid, version: int) | DuplicateKey

  datatype StoreResult = StoreResult(db: Db, outcome: Outcome)

  // ----- The operations, each atomic in the database -----

  function GetVersion(db: Db, id: Guid): Option<int> {
    if id in db.versions then Some(db.versions[id]) else None
  }

  /** An insert; None when the id is taken. */
  function AddEventSource(db: Db, id: Guid, version: int): Option<Db> {
    if id in db.versions then None else Some(db.(versions := db.versions[id := version]))
  }

  /** Whether the update finds the expected version and changes it. */
  predicate Updates(db: Db, id: Guid, newVersion: int, initialVersion: int) {
    id in db.versions && db.versions[id] == initialVersion && newVersion != initialVersion
  }

  function UpdateVersion(db: Db, id: Guid, newVersion: int, initialVersion: int): Db {
    if Updates(db, id, newVersion, initialVersion) then db.(versions := db.versions[id := newVersion]) else db
  }

  function NextSequence(db: Db): Db {
    db.(counter := db.counter + 1)
  }

  function InsertEvent(db: Db, sequentialId: int, e: UncommittedEvent): Db {
    db.(events := db.events + [DomainEvent(sequentialId, Committed(e))])
  }

  // ----- Store, uninterrupted -----

  function SaveEvent(db: Db, e: UncommittedEvent): Db {
    InsertEvent(NextSequence(db), db.counter + 1, e)
  }

  function SaveEvents(db: Db, es: seq<UncommittedEvent>): Db
    decreases |es|
  {
    if es == [] then db else SaveEvent(SaveEvents(db, es[..|es| - 1]), es[|es| - 1])
  }

  function NewVersion(es: seq<UncommittedEvent>): int
    requires es != []
  {
    es[0].initialVersion + |es|
  }

  /** StoreEventsFromSource. */
  function StoreGroup(db: Db, es: seq<UncommittedEvent>): StoreResult
    requires es != []
  {
    var id := es[0].sourceId;
    match GetVersion(db, id)
    case None =>
      (match AddEventSource(db, id, NewVersion(es))
       case None => StoreResult(db, DuplicateKey)
       case Some(added) => StoreResult(SaveEvents(added, es), Stored))
    case Some(version) =>
      if version != es[0].initialVersion || !Updates(db, id, NewVersion(es), es[0].initialVersion) then
        StoreResult(db, ConcurrencyException(id, NewVersion(es)))
      else StoreResult(SaveEvents(UpdateVersion(db, id, NewVersion(es), es[0].initialVersion), es), Stored)
  }

  /** group by, in order of first appearance. */
  function GroupBySource(es: seq<UncommittedEvent>): (groups: seq<seq<UncommittedEvent>>)
    ensures forall i | 0 <= i < |groups| :: groups[i] != []
    decreases |es|
  {
    if es == [] then []
    else
      OthersAreFewer(es);
      SourceMembers(es, es[0].sourceId, es[0]);
      [OfSource(es, es[0].sourceId)] + GroupBySource(OtherSources(es, es[0].sourceId))
  }

  lemma {:induction false} OthersAreFewer(es: seq<UncommittedEvent>)
    requires es != []
    ensures |OtherSources(es, es[0].sourceId)| < |es|
  {
    if |es| > 1 {
      OthersAreFewer(es[..|es| - 1]);
    } else {
      assert es[..0] == [];
    }
  }

  /** Groups are stored one after another; the first exception ends it and undoes nothing. */
  function StoreGroups(db: Db, groups: seq<seq<UncommittedEvent>>): StoreResult
    requires forall i | 0 <= i < |groups| :: groups[i] != []
    decreases |groups|
  {
    if groups == [] then StoreResult(db, Stored)
    else
      var r := StoreGroup(db, groups[0]);
      if r.outcome.Stored? then StoreGroups(r.db, groups[1..]) else r
  }

  lemma StoreFirstGroup(db: Db, groups: seq<seq<UncommittedEvent>>)
    requires groups != [] && forall i | 0 <= i < |groups| :: groups[i] != []
    ensures var r := StoreGroup(db, groups[0]);
      StoreGroups(db, groups) == if r.outcome == Stored then StoreGroups(r.db, groups[1..]) else r
  {
  }

  function Store(db: Db, es: seq<UncommittedEvent>): StoreResult {
    StoreGroups(db, GroupBySource(es))
  }

  lemma {:induction false} OfSingleSource(es: seq<UncommittedEvent>, id: Guid)
    requires forall i | 0 <= i < |es| :: es[i].sourceId == id
    ensures OfSource(es, id) == es && OtherSources(es, id) == []
  {
    if es != [] {
      OfSingleSource(es[..|es| - 1], id);
    }
  }

  /** A stream with one source makes one group: grouping it first would do the same. */
  lemma SingleSourceIsOneGroup(db: Db, es: seq<UncommittedEvent>)
    requires es != [] && SingleSource(es)
    ensures GroupBySource(es) == [es]
    ensures StoreGroups(db, GroupBySource(es)) == StoreGroup(db, es)
  {
    OfSingleSource(es, es[0].sourceId);
    var r := StoreGroup(db, es);
    assert [es][1..] == [] && StoreGroups(r.db, []) == StoreResult(r.db, Stored);
  }

  // ----- What a successful store adds -----

  lemma {:induction false} SavedEvents(db: Db, es: seq<UncommittedEvent>, id: Guid)
    requires forall i | 0 <= i < |es| :: es[i].sourceId == es[0].sourceId
    ensures SaveEvents(db, es).versions == db.versions
    ensures StoredEvents(SaveEvents(db, es).events, id) ==
            StoredEvents(db.events, id) + if es != [] && es[0].sourceId == id then AllCommitted(es) else []
  {
    if es != [] {
      var front, last := es[..|es| - 1], es[|es| - 1];
      SavedEvents(db, front, id);
      SavedEvent(SaveEvents(db, front), last, id);
      CommittedLast(es);
      if last.sourceId == id {
        Associate(StoredEvents(db.events, id), AllCommitted(front), Committed(last));
      }
    }
  }

  /** Each event is inserted at the end, under the next sequential id. */
  lemma {:induction false} SavedUnderNextIds(db: Db, es: seq<UncommittedEvent>)
    ensures var saved := SaveEvents(db, es);
      && saved.counter == db.counter + |es| && |saved.events| == |db.events| + |es| && db.events <= saved.events
      && forall i | 0 <= i < |es| :: saved.events[|db.events| + i] == DomainEvent(db.counter + 1 + i, Committed(es[i]))
  {
    if es != [] {
      SavedUnderNextIds(db, es[..|es| - 1]);
    }
  }

  lemma SavedEvent(db: Db, e: UncommittedEvent, id: Guid)
    ensures StoredEvents(SaveEvent(db, e).events, id) ==
            StoredEvents(db.events, id) + if e.sourceId == id then [Committed(e)] else []
  {
    assert SaveEvent(db, e).events[..|db.events|] == db.events;
  }

  lemma CommittedLast(es: seq<UncommittedEvent>)
    requires es != []
    ensures AllCommitted(es) == AllCommitted(es[..|es| - 1]) + [Committed(es[|es| - 1])]
  {
  }

  lemma Associate(a: seq<CommittedEvent>, b: seq<CommittedEvent>, e: CommittedEvent)
    ensures (a + b) + [e] == a + (b + [e])
  {
  }

  /** Nothing is recorded for the source, or just the version the group was applied to. */
  predicate Accepts(db: Db, es: seq<UncommittedEvent>)
    requires es != []
  {
    var version := GetVersion(db, es[0].sourceId);
    version == None || version == Some(es[0].initialVersion)
  }

  /** A group goes in exactly when its initial version is the recorded one, or nothing is recorded; then its
      events are appended, its version moves by their number, and no other source changes. */
  lemma StoredGroup(db: Db, es: seq<UncommittedEvent>, id: Guid)
    requires es != [] && forall i | 0 <= i < |es| :: es[i].sourceId == es[0].sourceId
    ensures var r := StoreGroup(db, es);
      && (r.outcome == Stored <==> Accepts(db, es))
      && (r.outcome == Stored ==>
            && GetVersion(r.db, id) == (if id == es[0].sourceId then Some(NewVersion(es)) else GetVersion(db, id))
            && StoredEvents(r.db.events, id) ==
                 StoredEvents(db.events, id) + if id == es[0].sourceId then AllCommitted(es) else [])
      && (r.outcome != Stored ==>
            r.db == db && r.outcome == ConcurrencyException(es[0].sourceId, es[0].initialVersion + |es|))
  {
    var added := db.(versions := db.versions[es[0].sourceId := NewVersion(es)]);
    SavedEvents(added, es, id);
  }

  /** The group of a source, empty when there is none. */
  function GroupOf(groups: seq<seq<UncommittedEvent>>, id: Guid): (group: seq<UncommittedEvent>)
    requires forall i | 0 <= i < |groups| :: groups[i] != []
    ensures group != [] <==> HasGroup(groups, id)
    ensures group != [] ==> group in groups && group[0].sourceId == id
  {
    if groups == [] then []
    else if groups[0][0].sourceId == id then groups[0]
    else
      assert HasGroup(groups[1..], id) <==> HasGroup(groups, id) by {
        assert forall i | 0 < i < |groups| :: groups[i] == groups[1..][i - 1];
      }
      GroupOf(groups[1..], id)
  }

  /** Several groups go in exactly when each would by itself; then every source gets its group, and no source
      anything else. */
  lemma {:induction false} StoredGroups(db: Db, groups: seq<seq<UncommittedEvent>>, id: Guid)
    requires DistinctSources(groups) && forall i | 0 <= i < |groups| :: SingleSource(groups[i])
    ensures var r, group := StoreGroups(db, groups), GroupOf(groups, id);
      && (r.outcome == Stored <==> forall i | 0 <= i < |groups| :: Accepts(db, groups[i]))
      && (r.outcome == Stored ==>
            && GetVersion(r.db, id) == (if group == [] then GetVersion(db, id) else Some(NewVersion(group)))
            && StoredEvents(r.db.events, id) == StoredEvents(db.events, id) + AllCommitted(group))
    decreases |groups|
  {
    if groups != [] {
      var r, later := StoreGroup(db, groups[0]), groups[1..];
      StoredGroup(db, groups[0], id);
      if r.outcome == Stored {
        OneGroupPerSource(groups, id);
        LaterAcceptance(db, groups);
        StoredGroups(r.db, later, id);
      }
    }
  }

  /** Storing the first group changes nothing about whether the later ones are accepted. */
  lemma LaterAcceptance(db: Db, groups: seq<seq<UncommittedEvent>>)
    requires DistinctSources(groups) && forall i | 0 <= i < |groups| :: SingleSource(groups[i])
    requires groups != [] && StoreGroup(db, groups[0]).outcome == Stored
    ensures var r, later := StoreGroup(db, groups[0]), groups[1..];
      (forall i | 0 <= i < |groups| :: Accepts(db, groups[i])) <==>
      Accepts(db, groups[0]) && forall i | 0 <= i < |later| :: Accepts(r.db, later[i])
  {
    var r, later := StoreGroup(db, groups[0]), groups[1..];
    forall i | 0 < i < |groups|
      ensures groups[i] == later[i - 1] && (Accepts(r.db, later[i - 1]) <==> Accepts(db, groups[i]))
    {
      StoredGroup(db, groups[0], groups[i][0].sourceId);
    }
  }

  lemma OneGroupPerSource(groups: seq<seq<UncommittedEvent>>, id: Guid)
    requires DistinctSources(groups) && groups != []
    ensures DistinctSources(groups[1..])
    ensures groups[0][0].sourceId == id ==> GroupOf(groups[1..], id) == []
  {
    assert forall i | 0 < i < |groups| :: groups[i] == groups[1..][i - 1];
  }

  /** The first group that is refused ends it with its ConcurrencyException, and the groups before it stay. */
  lemma {:induction false} RefusedGroup(db: Db, groups: seq<seq<UncommittedEvent>>) returns (n: nat)
    requires forall i | 0 <= i < |groups| :: groups[i] != [] && SingleSource(groups[i])
    requires StoreGroups(db, groups).outcome != Stored
    ensures n < |groups| && StoreGroups(db, groups[..n]) == StoreResult(StoreGroups(db, groups).db, Stored)
    ensures !Accepts(StoreGroups(db, groups).db, groups[n])
    ensures StoreGroups(db, groups).outcome ==
            ConcurrencyException(groups[n][0].sourceId, groups[n][0].initialVersion + |groups[n]|)
    decreases |groups|
  {
    var r := StoreGroup(db, groups[0]);
    StoredGroup(db, groups[0], groups[0][0].sourceId);
    if r.outcome == Stored {
      var m := RefusedGroup(r.db, groups[1..]);
      n := m + 1;
      assert groups[..n][0] == groups[0] && groups[..n][1..] == groups[1..][..m];
    } else {
      n := 0;
    }
  }

  /** What Store does to any source: it goes through exactly when every source of the stream is accepted, and then
      each source gets its events of the stream, in stream order. */
  lemma StoredStream(db: Db, es: seq<UncommittedEvent>, id: Guid)
    ensures forall i | 0 <= i < |es| :: OfSource(es, es[i].sourceId) != []
    ensures var r, group := Store(db, es), OfSource(es, id);
      && (r.outcome == Stored <==> forall i | 0 <= i < |es| :: Accepts(db, OfSource(es, es[i].sourceId)))
      && (r.outcome == Stored ==>
            && GetVersion(r.db, id) == (if group == [] then GetVersion(db, id) else Some(NewVersion(group)))
            && StoredEvents(r.db.events, id) == StoredEvents(db.events, id) + AllCommitted(group))
  {
    var groups := GroupBySource(es);
    GroupsAreSources(es);
    forall i | 0 <= i < |es|
      ensures OfSource(es, es[i].sourceId) in groups
    {
      GroupIsSource(es, groups, es[i].sourceId);
      SourceMembers(es, es[i].sourceId, es[i]);
    }
    forall i | 0 <= i < |groups|
      ensures SingleSource(groups[i]) && exists j :: 0 <= j < |es| && es[j].sourceId == groups[i][0].sourceId
    {
      GroupMembers(es, groups[i]);
    }
    StoredGroups(db, groups, id);
    GroupIsSource(es, groups, id);
  }

  lemma GroupIsSource(es: seq<UncommittedEvent>, groups: seq<seq<UncommittedEvent>>, id: Guid)
    requires AreSourcesOf(groups, es)
    ensures GroupOf(groups, id) == OfSource(es, id)
    ensures OfSource(es, id) != [] ==> OfSource(es, id) in groups
  {
    if OfSource(es, id) != [] {
      SourceMembers(es, id, OfSource(es, id)[0]);
    }
  }

  lemma GroupMembers(es: seq<UncommittedEvent>, group: seq<UncommittedEvent>)
    requires group != [] && group == OfSource(es, group[0].sourceId)
    ensures SingleSource(group) && exists j :: 0 <= j < |es| && es[j].sourceId == group[0].sourceId
  {
    forall e | e in group
      ensures e.sourceId == group[0].sourceId && e in es
    {
      SourceMembers(es, group[0].sourceId, e);
    }
  }

  // ----- Grouping keeps every source's events, in order -----

  lemma {:induction false} OtherThenOf(es: seq<UncommittedEvent>, id: Guid, other: Guid)
    requires other != id
    ensures OfSource(OtherSources(es, id), other) == OfSource(es, other)
  {
    if es != [] {
      var front, last := OtherSources(es[..|es| - 1], id), es[|es| - 1];
      OtherThenOf(es[..|es| - 1], id, other);
      if last.sourceId != id {
        assert (front + [last])[..|front|] == front;
      } else {
        assert OtherSources(es, id) == front;
      }
    }
  }

  /** The first event of `id` comes before every event of `other`. */
  ghost predicate AppearsBefore(es: seq<UncommittedEvent>, id: Guid, other: Guid) {
    exists k :: 0 <= k < |es| && es[k].sourceId == id && forall m | 0 <= m <= k :: es[m].sourceId != other
  }

  lemma {:induction false} OthersKeepAppearance(es: seq<UncommittedEvent>, gone: Guid, id: Guid, other: Guid)
    requires id != gone && other != gone && AppearsBefore(OtherSources(es, gone), id, other)
    ensures AppearsBefore(es, id, other)
  {
    var front, before, others := es[..|es| - 1], OtherSources(es[..|es| - 1], gone), OtherSources(es, gone);
    var k :| 0 <= k < |others| && others[k].sourceId == id && forall m | 0 <= m <= k :: others[m].sourceId != other;
    assert others == before + if es[|es| - 1].sourceId != gone then [es[|es| - 1]] else [];
    if k < |before| {
      assert forall m | 0 <= m <= k :: before[m] == others[m];
      OthersKeepAppearance(front, gone, id, other);
      var j :| 0 <= j < |front| && front[j].sourceId == id && forall m | 0 <= m <= j :: front[m].sourceId != other;
      assert es[j].sourceId == id && forall m | 0 <= m <= j :: es[m] == front[m];
    } else {
      forall m | 0 <= m < |es|
        ensures es[m].sourceId != other
      {
        assert es[m] in es;
        SourceMembers(es, gone, es[m]);
      }
      assert es[|es| - 1].sourceId == id;
    }
  }

  /** Groups come in the order in which their sources first appear in the stream. */
  lemma {:induction false} GroupsInOrderOfAppearance(es: seq<UncommittedEvent>, i: nat, j: nat)
    requires i < j < |GroupBySource(es)|
    ensures AppearsBefore(es, GroupBySource(es)[i][0].sourceId, GroupBySource(es)[j][0].sourceId)
    decreases |es|
  {
    var gone, later := es[0].sourceId, GroupBySource(OtherSources(es, es[0].sourceId));
    OthersAreFewer(es);
    GroupsDiffer(es, i, j);
    FirstIsOfFirst(es, later);
    if i > 0 {
      GroupsDiffer(es, 0, i);
      GroupsDiffer(es, 0, j);
      GroupsInOrderOfAppearance(OtherSources(es, gone), i - 1, j - 1);
      LaterAppear(es, gone, later, i, j);
    }
  }

  lemma LaterAppear(es: seq<UncommittedEvent>, gone: Guid, later: seq<seq<UncommittedEvent>>, i: nat, j: nat)
    requires 0 < i < j <= |later| && forall k | 0 <= k < |later| :: later[k] != []
    requires later[i - 1][0].sourceId != gone && later[j - 1][0].sourceId != gone
    requires AppearsBefore(OtherSources(es, gone), later[i - 1][0].sourceId, later[j - 1][0].sourceId)
    ensures AppearsBefore(es, later[i - 1][0].sourceId, later[j - 1][0].sourceId)
  {
    OthersKeepAppearance(es, gone, later[i - 1][0].sourceId, later[j - 1][0].sourceId);
  }

  lemma GroupsDiffer(es: seq<UncommittedEvent>, i: nat, j: nat)
    requires i < j < |GroupBySource(es)|
    ensures GroupBySource(es)[i][0].sourceId != GroupBySource(es)[j][0].sourceId
  {
    GroupsAreSources(es);
  }

  lemma FirstIsOfFirst(es: seq<UncommittedEvent>, later: seq<seq<UncommittedEvent>>)
    requires es != [] && later == GroupBySource(OtherSources(es, es[0].sourceId))
    ensures OfSource(es, es[0].sourceId) != [] && OfSource(es, es[0].sourceId)[0].sourceId == es[0].sourceId
    ensures GroupBySource(es) == [OfSource(es, es[0].sourceId)] + later
    ensures forall other | other != es[0].sourceId :: AppearsBefore(es, es[0].sourceId, other)
  {
    var first := OfSource(es, es[0].sourceId);
    SourceMembers(es, es[0].sourceId, es[0]);
    SourceMembers(es, es[0].sourceId, first[0]);
  }

  ghost predicate DistinctSources(groups: seq<seq<UncommittedEvent>>) {
    && (forall i | 0 <= i < |groups| :: groups[i] != [])
    && forall i, j | 0 <= i < j < |groups| :: groups[i][0].sourceId != groups[j][0].sourceId
  }

  ghost predicate HasGroup(groups: seq<seq<UncommittedEvent>>, id: Guid) {
    exists i :: 0 <= i < |groups| && groups[i] != [] && groups[i][0].sourceId == id
  }

  /** Each group is all of one source's events in stream order. */
  ghost predicate AreGroupsOf(groups: seq<seq<UncommittedEvent>>, es: seq<UncommittedEvent>) {
    && (forall i | 0 <= i < |groups| :: groups[i] != [])
    && forall i | 0 <= i < |groups| :: groups[i] == OfSource(es, groups[i][0].sourceId)
  }

  /** And every event's source has one. */
  ghost predicate AreSourcesOf(groups: seq<seq<UncommittedEvent>>, es: seq<UncommittedEvent>) {
    AreGroupsOf(groups, es) && forall e | e in es :: HasGroup(groups, e.sourceId)
  }

  /** The groups are the sources' events, every source has a group, and no two groups share a source. */
  lemma {:induction false} GroupsAreSources(es: seq<UncommittedEvent>)
    ensures AreSourcesOf(GroupBySource(es), es) && DistinctSources(GroupBySource(es))
    decreases |es|
  {
    if es != [] {
      var id := es[0].sourceId;
      OthersAreFewer(es);
      GroupsAreSources(OtherSources(es, id));
      FirstGroup(es, OfSource(es, id), GroupBySource(OtherSources(es, id)));
    }
  }

  lemma FirstGroup(es: seq<UncommittedEvent>, first: seq<UncommittedEvent>, later: seq<seq<UncommittedEvent>>)
    requires es != [] && first == OfSource(es, es[0].sourceId)
    requires AreSourcesOf(later, OtherSources(es, es[0].sourceId)) && DistinctSources(later)
    ensures AreSourcesOf([first] + later, es) && DistinctSources([first] + later)
  {
    var id := es[0].sourceId;
    SourceMembers(es, id, es[0]);
    SourceMembers(es, id, first[0]);
    forall i | 0 <= i < |later|
      ensures later[i][0].sourceId != id && later[i] == OfSource(es, later[i][0].sourceId)
    {
      LaterGroup(es, id, later[i]);
    }
    ConsGroups(es, first, later);
    forall e | e in es
      ensures HasGroup([first] + later, e.sourceId)
    {
      SourceMembers(es, id, e);
      ConsHasGroup(first, later, e.sourceId);
    }
  }

  lemma ConsHasGroup(first: seq<UncommittedEvent>, later: seq<seq<UncommittedEvent>>, id: Guid)
    requires first != [] && (first[0].sourceId == id || HasGroup(later, id))
    ensures HasGroup([first] + later, id)
  {
    var all := [first] + later;
    if first[0].sourceId == id {
      assert all[0] == first;
    } else {
      var i :| 0 <= i < |later| && later[i] != [] && later[i][0].sourceId == id;
      assert all[i + 1] == later[i];
    }
  }

  lemma LaterGroup(es: seq<UncommittedEvent>, id: Guid, group: seq<UncommittedEvent>)
    requires group != [] && group == OfSource(OtherSources(es, id), group[0].sourceId)
    ensures group[0].sourceId != id && group == OfSource(es, group[0].sourceId)
  {
    SourceMembers(OtherSources(es, id), group[0].sourceId, group[0]);
    SourceMembers(es, id, group[0]);
    OtherThenOf(es, id, group[0].sourceId);
  }

  lemma ConsGroups(es: seq<UncommittedEvent>, first: seq<UncommittedEvent>, later: seq<seq<UncommittedEvent>>)
    requires first != [] && first == OfSource(es, first[0].sourceId)
    requires DistinctSources(later) && AreGroupsOf(later, es)
    requires forall i | 0 <= i < |later| :: later[i][0].sourceId != first[0].sourceId
    ensures AreGroupsOf([first] + later, es) && DistinctSources([first] + later)
  {
    var all := [first] + later;
    assert forall i | 0 < i < |all| :: all[i] == later[i - 1];
  }

  // ----- Reading -----

  function StoredEvents(events: seq<DomainEvent>, id: Guid): seq<CommittedEvent> {
    if events == [] then []
    else
      var last := events[|events| - 1].event;
      StoredEvents(events[..|events| - 1], id) + if last.sourceId == id then [last] else []
  }

  function InRange(es: seq<CommittedEvent>, minVersion: int, maxVersion: int): seq<CommittedEvent> {
    if es == [] then []
    else
      var last := es[|es| - 1];
      InRange(es[..|es| - 1], minVersion, maxVersion) + if minVersion <= last.sequence <= maxVersion then [last] else []
  }

  function InsertSorted(e: CommittedEvent, sorted: seq<CommittedEvent>): (r: seq<CommittedEvent>)
    ensures multiset(r) == multiset(sorted) + multiset{e}
  {
    if sorted == [] || sorted[|sorted| - 1].sequence <= e.sequence then sorted + [e]
    else
      assert sorted == sorted[..|sorted| - 1] + [sorted[|sorted| - 1]];
      InsertSorted(e, sorted[..|sorted| - 1]) + [sorted[|sorted| - 1]]
  }

  /** OrderBy(x => x.EventSequence): stable. */
  function OrderBySequence(es: seq<CommittedEvent>): (r: seq<CommittedEvent>)
    ensures multiset(r) == multiset(es)
  {
    if es == [] then []
    else
      assert es == es[..|es| - 1] + [es[|es| - 1]];
      InsertSorted(es[|es| - 1], OrderBySequence(es[..|es| - 1]))
  }

  ghost predicate SequencesAscend(es: seq<CommittedEvent>) {
    forall i, j | 0 <= i < j < |es| :: es[i].sequence < es[j].sequence
  }

  ghost predicate SequencesSorted(es: seq<CommittedEvent>) {
    forall i, j | 0 <= i < j < |es| :: es[i].sequence <= es[j].sequence
  }

  lemma {:induction false} InsertKeepsSorted(e: CommittedEvent, sorted: seq<CommittedEvent>)
    requires SequencesSorted(sorted)
    ensures SequencesSorted(InsertSorted(e, sorted))
  {
    if sorted != [] && e.sequence < sorted[|sorted| - 1].sequence {
      var front, last := sorted[..|sorted| - 1], sorted[|sorted| - 1];
      InsertKeepsSorted(e, front);
      forall x | x in InsertSorted(e, front)
        ensures x.sequence <= last.sequence
      {
        InsertMember(e, front, x);
      }
    }
  }

  lemma InsertMember(e: CommittedEvent, sorted: seq<CommittedEvent>, x: CommittedEvent)
    requires x in InsertSorted(e, sorted)
    ensures x in sorted || x == e
  {
    assert x in multiset(InsertSorted(e, sorted));
  }

  lemma {:induction false} OrderingSorts(es: seq<CommittedEvent>)
    ensures SequencesSorted(OrderBySequence(es))
  {
    if es != [] {
      OrderingSorts(es[..|es| - 1]);
      InsertKeepsSorted(es[|es| - 1], OrderBySequence(es[..|es| - 1]));
    }
  }

  /** Two arrangements of the same events, one sorted and one strictly ascending, end in the same event. */
  lemma SameLast(a: seq<CommittedEvent>, b: seq<CommittedEvent>)
    requires a != [] && b != [] && SequencesSorted(a) && SequencesAscend(b) && multiset(a) == multiset(b)
    ensures a[|a| - 1] == b[|b| - 1]
  {
    var x, y := a[|a| - 1], b[|b| - 1];
    assert x in multiset(b) && y in multiset(a);
    var i :| 0 <= i < |b| && b[i] == x;
    var j :| 0 <= j < |a| && a[j] == y;
    assert a[j].sequence <= x.sequence;
  }

  /** Sorting any arrangement of an ascending list gives that list. */
  lemma {:induction false} SortedIsUnique(a: seq<CommittedEvent>, b: seq<CommittedEvent>)
    requires SequencesSorted(a) && SequencesAscend(b) && multiset(a) == multiset(b)
    ensures a == b
    decreases |a|
  {
    SameLength(a, b);
    if a != [] {
      SameLast(a, b);
      WithoutLast(a);
      WithoutLast(b);
      var a', b' := a[..|a| - 1], b[..|b| - 1];
      assert SequencesSorted(a') && SequencesAscend(b') && multiset(a') == multiset(b');
      SortedIsUnique(a', b');
      assert a == a' + [a[|a| - 1]] && b == b' + [b[|b| - 1]];
    }
  }

  lemma SameLength(a: seq<CommittedEvent>, b: seq<CommittedEvent>)
    requires multiset(a) == multiset(b)
    ensures |a| == |b|
  {
    assert |multiset(a)| == |a| && |multiset(b)| == |b|;
  }

  lemma WithoutLast(es: seq<CommittedEvent>)
    requires es != []
    ensures multiset(es[..|es| - 1]) == multiset(es) - multiset{es[|es| - 1]}
  {
    assert es == es[..|es| - 1] + [es[|es| - 1]];
  }

  lemma OrderingAnyArrangement(found: seq<CommittedEvent>, ascending: seq<CommittedEvent>)
    requires SequencesAscend(ascending) && multiset(found) == multiset(ascending)
    ensures OrderBySequence(found) == ascending
  {
    OrderingSorts(found);
    SortedIsUnique(OrderBySequence(found), ascending);
  }

  /** Where the range begins and ends in a history of `n` events. */
  function Low(minVersion: int, n: nat): (low: nat)
    ensures low <= n
  {
    if minVersion <= 1 then 0 else if minVersion <= n then minVersion - 1 else n
  }

  function High(minVersion: int, maxVersion: int, n: nat): (high: nat)
    ensures Low(minVersion, n) <= high <= n
  {
    if maxVersion < Low(minVersion, n) then Low(minVersion, n) else if maxVersion < n then maxVersion else n
  }

  /** In a gapless history a range of versions is a contiguous stretch. */
  lemma {:induction false} RangeIsSlice(es: seq<CommittedEvent>, minVersion: int, maxVersion: int)
    requires forall i | 0 <= i < |es| :: es[i].sequence == i + 1
    ensures InRange(es, minVersion, maxVersion) == es[Low(minVersion, |es|)..High(minVersion, maxVersion, |es|)]
  {
    if es != [] {
      RangeIsSlice(es[..|es| - 1], minVersion, maxVersion);
      OneMoreInRange(es, minVersion, maxVersion);
    }
  }

  lemma OneMoreInRange(es: seq<CommittedEvent>, minVersion: int, maxVersion: int)
    requires es != []
    ensures var front, last := es[..|es| - 1], es[|es| - 1];
      es[Low(minVersion, |es|)..High(minVersion, maxVersion, |es|)] ==
      front[Low(minVersion, |front|)..High(minVersion, maxVersion, |front|)] +
        if minVersion <= |es| <= maxVersion then [last] else []
  {
    var front, last := es[..|es| - 1], es[|es| - 1];
    var low, high := Low(minVersion, |front|), High(minVersion, maxVersion, |front|);
    if minVersion <= |es| <= maxVersion {
      assert low == Low(minVersion, |es|) && high == |front| && High(minVersion, maxVersion, |es|) == |es|;
      assert es[low..] == front[low..] + [last];
    } else if |es| < minVersion {
      assert Low(minVersion, |es|) == |es|;
    } else {
      assert low == Low(minVersion, |es|) && high == High(minVersion, maxVersion, |es|);
      assert es[low..high] == front[low..high];
    }
  }

  lemma {:induction false} RangeMembers(es: seq<CommittedEvent>, minVersion: int, maxVersion: int, e: CommittedEvent)
    ensures e in InRange(es, minVersion, maxVersion) <==> e in es && minVersion <= e.sequence <= maxVersion
  {
    if es != [] {
      RangeMembers(es[..|es| - 1], minVersion, maxVersion, e);
      assert es == es[..|es| - 1] + [es[|es| - 1]];
    }
  }

  lemma {:induction false} RangeAscends(es: seq<CommittedEvent>, minVersion: int, maxVersion: int)
    requires SequencesAscend(es)
    ensures SequencesAscend(InRange(es, minVersion, maxVersion))
  {
    if es != [] {
      var front := es[..|es| - 1];
      RangeAscends(front, minVersion, maxVersion);
      forall e | e in InRange(front, minVersion, maxVersion)
        ensures e.sequence < es[|es| - 1].sequence
      {
        RangeMembers(front, minVersion, maxVersion, e);
      }
    }
  }

  /** A range of a stream is a stream, and ends with it when it reaches its end. */
  lemma {:induction false} RangeOfStream(id: Guid, es: seq<CommittedEvent>, minVersion: int, maxVersion: int)
    requires IsStream(id, es)
    ensures var r := InRange(es, minVersion, maxVersion);
      IsStream(id, r) && (r != [] && es[|es| - 1].sequence <= maxVersion ==> r[|r| - 1] == es[|es| - 1])
  {
    if es != [] {
      var front, r := es[..|es| - 1], InRange(es, minVersion, maxVersion);
      RangeOfStream(id, front, minVersion, maxVersion);
      if r != [] {
        RangeMembers(front, minVersion, maxVersion, r[0]);
      }
    }
  }

  /** How many events of an ascending list are numbered up to `maxVersion`. */
  function CountUpTo(es: seq<CommittedEvent>, maxVersion: int): (n: nat)
    ensures n <= |es| && (n < |es| ==> es[n].sequence > maxVersion) && (n > 0 ==> es[n - 1].sequence <= maxVersion)
  {
    if es == [] then 0
    else if es[|es| - 1].sequence <= maxVersion then |es|
    else CountUpTo(es[..|es| - 1], maxVersion)
  }

  /** A range of a list whose numbers go up is a stretch of it. */
  lemma {:induction false} RangeIsStretch(es: seq<CommittedEvent>, k: nat, n: nat, minVersion: int, maxVersion: int)
    requires k <= n <= |es| && (forall i | 0 <= i < k :: es[i].sequence < minVersion)
    requires forall i | k <= i < n :: minVersion <= es[i].sequence <= maxVersion
    requires forall i | n <= i < |es| :: es[i].sequence > maxVersion
    ensures InRange(es, minVersion, maxVersion) == es[k..n]
  {
    if es != [] {
      var front, last := es[..|es| - 1], es[|es| - 1];
      if n < |es| {
        RangeIsStretch(front, k, n, minVersion, maxVersion);
      } else if k < |es| {
        RangeIsStretch(front, k, n - 1, minVersion, maxVersion);
        assert es[k..n] == front[k..n - 1] + [last];
      } else {
        RangeIsStretch(front, k - 1, n - 1, minVersion, maxVersion);
      }
    }
  }

  lemma {:induction false} WholeRange(es: seq<CommittedEvent>, minVersion: int, maxVersion: int)
    requires forall i | 0 <= i < |es| :: minVersion <= es[i].sequence <= maxVersion
    ensures InRange(es, minVersion, maxVersion) == es
  {
    if es != [] {
      WholeRange(es[..|es| - 1], minVersion, maxVersion);
    }
  }

  lemma RangeIsStream(id: Guid, stored: seq<CommittedEvent>, minVersion: int, maxVersion: int)
    requires forall i | 0 <= i < |stored| :: stored[i].sequence == i + 1 && stored[i].sourceId == id
    ensures var r := InRange(stored, minVersion, maxVersion);
      && IsStream(id, r) && SequencesAscend(r)
      && forall i | 0 <= i < |r| :: minVersion <= r[i].sequence <= maxVersion
  {
    RangeIsSlice(stored, minVersion, maxVersion);
  }

  // ----- Reading whatever is stored -----

  /** ReadFrom, found and sorted. */
  function Read(stored: seq<CommittedEvent>, minVersion: int, maxVersion: int): seq<CommittedEvent> {
    OrderBySequence(InRange(stored, minVersion, maxVersion))
  }

  /** The stored events of a source whose units of work may have left gaps. */
  ghost predicate IsAscending(id: Guid, stored: seq<CommittedEvent>) {
    SequencesAscend(stored) && forall i | 0 <= i < |stored| :: stored[i].sourceId == id && stored[i].sequence >= 1
  }

  predicate NumberedUpTo(stored: seq<CommittedEvent>, n: nat) {
    n <= |stored| && forall i | 0 <= i < n :: stored[i].sequence == i + 1
  }

  /** Reading from `k` numbered events on, up to a maximum, gives a stretch of what is stored. */
  lemma ReadsStretch(id: Guid, stored: seq<CommittedEvent>, k: nat, minVersion: int, maxVersion: int)
    requires IsAscending(id, stored) && NumberedUpTo(stored, k) && k <= maxVersion
    requires minVersion == k + 1 || (k == 0 && minVersion <= 1)
    ensures k <= CountUpTo(stored, maxVersion)
    ensures Read(stored, minVersion, maxVersion) == stored[k..CountUpTo(stored, maxVersion)]
  {
    var n := CountUpTo(stored, maxVersion);
    assert k > 0 ==> stored[k - 1].sequence == k;
    RangeIsStretch(stored, k, n, minVersion, maxVersion);
    OrderingAnyArrangement(stored[k..n], stored[k..n]);
  }

  lemma NothingUpTo(id: Guid, stored: seq<CommittedEvent>, maxVersion: int)
    requires IsAscending(id, stored) && maxVersion < 1
    ensures CountUpTo(stored, maxVersion) == 0 && Read(stored, LONG_MIN, maxVersion) == []
  {
    RangeIsStretch(stored, 0, 0, LONG_MIN, maxVersion);
  }

  /** The snapshot that is used: the latest, unless it is beyond what was asked for. */
  function Used(latest: Option<int>, maxVersion: int): Option<int> {
    if latest.Some? && latest.value <= maxVersion then latest else None
  }

  function Base(snapshot: Option<int>): int {
    if snapshot.Some? then snapshot.value else 0
  }

  function FirstRead(snapshot: Option<int>): int {
    if snapshot.Some? then snapshot.value + 1 else LONG_MIN
  }

  predicate FollowOn(es: seq<CommittedEvent>, n: int) {
    forall i | 0 <= i < |es| :: es[i].sequence == n + 1 + i
  }

  /** The version of an aggregate restored from the snapshot, or new, that these events were replayed on; None when
      there is nothing, or the events do not fit. */
  function ReplayedVersion(snapshot: Option<int>, es: seq<CommittedEvent>): Option<int> {
    if FollowOn(es, Base(snapshot)) && (snapshot.Some? || es != []) then Some(Base(snapshot) + |es|) else None
  }

  /** The version an aggregate has when it is loaded up to a maximum. */
  function LoadedVersion(stored: seq<CommittedEvent>, latest: Option<int>, maxVersion: int): Option<int> {
    var snapshot := Used(latest, maxVersion);
    ReplayedVersion(snapshot, Read(stored, FirstRead(snapshot), maxVersion))
  }

  lemma ReadsFromBase(id: Guid, stored: seq<CommittedEvent>, snapshot: Option<int>, maxVersion: int)
    requires IsAscending(id, stored)
    requires snapshot.Some? ==> 0 <= snapshot.value <= maxVersion && NumberedUpTo(stored, snapshot.value)
    ensures Base(snapshot) <= CountUpTo(stored, maxVersion)
    ensures Read(stored, FirstRead(snapshot), maxVersion) == stored[Base(snapshot)..CountUpTo(stored, maxVersion)]
  {
    if snapshot == None && maxVersion < 1 {
      NothingUpTo(id, stored, maxVersion);
    } else {
      ReadsStretch(id, stored, Base(snapshot), FirstRead(snapshot), maxVersion);
    }
  }

  /** Through a snapshot of a version that is stored without a gap, or none, only such versions are loaded. */
  lemma LoadedIsNumbered(id: Guid, stored: seq<CommittedEvent>, latest: Option<int>, maxVersion: int, n: int)
    requires IsAscending(id, stored) && LoadedVersion(stored, latest, maxVersion) == Some(n)
    requires Used(latest, maxVersion).Some? ==> latest.value >= 0 && NumberedUpTo(stored, latest.value)
    ensures n >= 0 && NumberedUpTo(stored, n)
  {
    ReadsFromBase(id, stored, Used(latest, maxVersion), maxVersion);
    ReplayedIsNumbered(stored, Used(latest, maxVersion), CountUpTo(stored, maxVersion), n);
  }

  lemma ReplayedIsNumbered(stored: seq<CommittedEvent>, snapshot: Option<int>, end: nat, n: int)
    requires 0 <= Base(snapshot) <= end <= |stored| && NumberedUpTo(stored, Base(snapshot))
    requires ReplayedVersion(snapshot, stored[Base(snapshot)..end]) == Some(n)
    ensures n >= 0 && NumberedUpTo(stored, n)
  {
    TailIsNumbered(stored, Base(snapshot), end);
  }

  lemma TailIsNumbered(stored: seq<CommittedEvent>, k: nat, n: nat)
    requires k <= n <= |stored| && NumberedUpTo(stored, k)
    ensures FollowOn(stored[k..n], k) ==> NumberedUpTo(stored, n)
  {
    assert forall i | k <= i < n :: stored[i] == stored[k..n][i - k];
  }

  /** Every stored version without a gap before it can be loaded. */
  lemma LoadsNumbered(id: Guid, stored: seq<CommittedEvent>, latest: Option<int>, n: nat)
    requires IsAscending(id, stored) && n >= 1 && NumberedUpTo(stored, n)
    requires Used(latest, n).Some? ==> latest.value >= 0
    ensures LoadedVersion(stored, latest, n) == Some(n)
  {
    CountUpToNumbered(stored, n);
    ReadsFromBase(id, stored, Used(latest, n), n);
    StretchIsReplayed(stored, Used(latest, n), n);
  }

  lemma StretchIsReplayed(stored: seq<CommittedEvent>, snapshot: Option<int>, n: nat)
    requires 0 <= Base(snapshot) <= n && n >= 1 && NumberedUpTo(stored, n)
    ensures ReplayedVersion(snapshot, stored[Base(snapshot)..n]) == Some(n)
  {
    StretchIsNumbered(stored, Base(snapshot), n);
  }

  lemma CountUpToNumbered(stored: seq<CommittedEvent>, n: nat)
    requires SequencesAscend(stored) && n >= 1 && NumberedUpTo(stored, n)
    ensures CountUpTo(stored, n) == n
  {
    assert stored[n - 1].sequence == n;
    assert n < |stored| ==> stored[n].sequence > n;
  }

  lemma StretchIsNumbered(stored: seq<CommittedEvent>, k: nat, n: nat)
    requires k <= n && NumberedUpTo(stored, n)
    ensures FollowOn(stored[k..n], k)
  {
    assert forall i | 0 <= i < n - k :: stored[k..n][i] == stored[k + i];
  }

  lemma NothingRead(stored: seq<CommittedEvent>, minVersion: int, maxVersion: int)
    requires forall i | 0 <= i < |stored| :: stored[i].sequence < minVersion
    ensures Read(stored, minVersion, maxVersion) == []
  {
    RangeIsStretch(stored, |stored|, |stored|, minVersion, maxVersion);
  }

  lemma {:induction false} NothingInRange(es: seq<CommittedEvent>, minVersion: int, maxVersion: int)
    requires maxVersion < minVersion
    ensures InRange(es, minVersion, maxVersion) == []
  {
    if es != [] {
      NothingInRange(es[..|es| - 1], minVersion, maxVersion);
    }
  }

  lemma NothingReplayed(version: int)
    ensures ReplayedVersion(Some(version), []) == Some(version)
  {
  }
}
