/** Which exception Store ends with, and what it leaves behind. */
module MongoOutcomes {
  import opened Common
  import opened EventStreams
  import opened MongoStore

  // ----- A stream that is refused -----

  lemma NeverBothFirst(es: seq<UncommittedEvent>, id: Guid, other: Guid)
    requires AppearsBefore(es, id, other)
    ensures !AppearsBefore(es, other, id) && OfSource(es, id) != []
  {
    var k :| 0 <= k < |es| && es[k].sourceId == id && forall m | 0 <= m <= k :: es[m].sourceId != other;
    SourceMembers(es, id, es[k]);
    forall j | 0 <= j < |es| && es[j].sourceId == other
      ensures k < j
    {
    }
  }

  /** The groups before the `n`th are those of the sources that first appear before its source. */
  lemma EarlierGroups(es: seq<UncommittedEvent>, groups: seq<seq<UncommittedEvent>>, n: nat, other: Guid)
    requires groups == GroupBySource(es) && n < |groups|
    ensures GroupOf(groups[..n], other) ==
            if AppearsBefore(es, other, groups[n][0].sourceId) then OfSource(es, other) else []
  {
    GroupsAreSources(es);
    if AppearsBefore(es, other, groups[n][0].sourceId) {
      EarlierHasGroup(es, groups, n, other);
    }
    if HasGroup(groups[..n], other) {
      var i :| 0 <= i < n && groups[i][0].sourceId == other;
      GroupsInOrderOfAppearance(es, i, n);
    }
  }

  lemma EarlierHasGroup(es: seq<UncommittedEvent>, groups: seq<seq<UncommittedEvent>>, n: nat, other: Guid)
    requires groups == GroupBySource(es) && n < |groups| && AppearsBefore(es, other, groups[n][0].sourceId)
    ensures HasGroup(groups[..n], other)
  {
    GroupsAreSources(es);
    var i := GroupAt(es, groups, other);
    LaterIsNotBefore(es, groups, n, i);
    assert groups[..n][i] == groups[i];
  }

  lemma LaterIsNotBefore(es: seq<UncommittedEvent>, groups: seq<seq<UncommittedEvent>>, n: nat, i: nat)
    requires groups == GroupBySource(es) && n < |groups| && i < |groups|
    ensures n <= i ==> !AppearsBefore(es, groups[i][0].sourceId, groups[n][0].sourceId)
  {
    if n < i {
      GroupsInOrderOfAppearance(es, n, i);
      NeverBothFirst(es, groups[n][0].sourceId, groups[i][0].sourceId);
    }
  }

  lemma GroupAt(es: seq<UncommittedEvent>, groups: seq<seq<UncommittedEvent>>, id: Guid) returns (i: nat)
    requires AreSourcesOf(groups, es) && exists k :: 0 <= k < |es| && es[k].sourceId == id
    ensures i < |groups| && groups[i] != [] && groups[i][0].sourceId == id
  {
    var k :| 0 <= k < |es| && es[k].sourceId == id;
    assert es[k] in es;
    i :| i < |groups| && groups[i] != [] && groups[i][0].sourceId == id;
  }

  /** What the refusal of `id` leaves of another source: all its events when it first appears earlier, or none. */
  ghost predicate StoredIfEarlier(db: Db, db': Db, es: seq<UncommittedEvent>, id: Guid, other: Guid) {
    var group := OfSource(es, other);
    if AppearsBefore(es, other, id) then
      && group != [] && Accepts(db, group) && GetVersion(db', other) == Some(NewVersion(group))
      && StoredEvents(db'.events, other) == StoredEvents(db.events, other) + AllCommitted(group)
    else
      && GetVersion(db', other) == GetVersion(db, other)
      && StoredEvents(db'.events, other) == StoredEvents(db.events, other)
  }

  /** Store that does not go through ends with the ConcurrencyException of the first source, in order of appearance,
      for which another version is recorded than its events were applied to. The sources before it are stored, and no
      other is touched. */
  lemma ThrowsForFirstConflict(db: Db, es: seq<UncommittedEvent>) returns (id: Guid)
    requires Store(db, es).outcome != Stored
    ensures var group := OfSource(es, id);
      && group != [] && id in db.versions && db.versions[id] != group[0].initialVersion
      && Store(db, es).outcome == ConcurrencyException(id, group[0].initialVersion + |group|)
    ensures forall other :: StoredIfEarlier(db, Store(db, es).db, es, id, other)
  {
    var groups := GroupBySource(es);
    GroupsAreSources(es);
    SingleSources(es, groups);
    var n := RefusedGroup(db, groups);
    id := groups[n][0].sourceId;
    forall other
      ensures StoredIfEarlier(db, Store(db, es).db, es, id, other)
    {
      EarlierSource(db, es, groups, n, other);
    }
    NotBeforeItself(es, id);
    assert StoredIfEarlier(db, Store(db, es).db, es, id, id);
  }

  lemma NotBeforeItself(es: seq<UncommittedEvent>, id: Guid)
    ensures !AppearsBefore(es, id, id)
  {
  }

  lemma SingleSources(es: seq<UncommittedEvent>, groups: seq<seq<UncommittedEvent>>)
    requires AreSourcesOf(groups, es)
    ensures forall i | 0 <= i < |groups| :: SingleSource(groups[i])
  {
    forall i | 0 <= i < |groups|
      ensures SingleSource(groups[i])
    {
      GroupMembers(es, groups[i]);
    }
  }

  lemma EarlierSource(db: Db, es: seq<UncommittedEvent>, groups: seq<seq<UncommittedEvent>>, n: nat, other: Guid)
    requires groups == GroupBySource(es) && DistinctSources(groups) && n < |groups|
    requires forall i | 0 <= i < |groups| :: SingleSource(groups[i])
    requires StoreGroups(db, groups[..n]) == StoreResult(Store(db, es).db, Stored)
    ensures StoredIfEarlier(db, Store(db, es).db, es, groups[n][0].sourceId, other)
  {
    var id := groups[n][0].sourceId;
    StoredGroups(db, groups[..n], other);
    EarlierGroups(es, groups, n, other);
    if AppearsBefore(es, other, id) {
      NeverBothFirst(es, other, id);
      var group := GroupOf(groups[..n], other);
      assert group in groups[..n];
    }
  }

  /** Left alone, the insert of a new event source never meets a duplicate key. */
  lemma NeverDuplicateKey(db: Db, es: seq<UncommittedEvent>)
    ensures Store(db, es).outcome != DuplicateKey
  {
    if Store(db, es).outcome != Stored {
      var id := ThrowsForFirstConflict(db, es);
    }
  }
}
