/** The interleaved model and the sequential one agree: a writer left alone does exactly what Store does. */
module MongoUninterrupted {
  import opened Common
  import opened EventStreams
  import opened MongoStore
  import opened MongoRace

  function Iterate<T>(f: T -> T, t: T, n: nat): T {
    if n == 0 then t else f(Iterate(f, t, n - 1))
  }

  lemma {:induction false} IterateAgain<T>(f: T -> T, t: T, m: nat, n: nat)
    ensures Iterate(f, Iterate(f, t, m), n) == Iterate(f, t, m + n)
  {
    if n > 0 {
      IterateAgain(f, t, m, n - 1);
    }
  }

  function Operation(w: nat): State -> State {
    s => Next(s, Progress(w))
  }

  /** `n` operations of writer `w`, nothing in between. */
  function Alone(s: State, w: nat, n: nat): State {
    Iterate(Operation(w), s, n)
  }

  lemma AloneAgain(s: State, w: nat, m: nat, n: nat)
    ensures Alone(Alone(s, w, m), w, n) == Alone(s, w, m + n)
  {
    IterateAgain(Operation(w), s, m, n);
  }

  /** The writer and the database it sees. */
  ghost predicate At(s: State, w: nat, db: Db, writer: Writer) {
    w < |s.writers| && s.db == db && s.writers[w] == writer
  }

  lemma ReadAlone(s: State, w: nat, db: Db, groups: seq<seq<UncommittedEvent>>)
    requires groups != [] && groups[0] != [] && At(s, w, db, Writer(groups, Reading))
    ensures At(Alone(s, w, 1), w, db, Writer(groups, Deciding(GetVersion(db, groups[0][0].sourceId))))
  {
    assert Alone(s, w, 1) == Next(Alone(s, w, 0), Progress(w));
  }

  /** The version is recorded, or the store throws and nothing is. */
  lemma DecideAlone(s: State, w: nat, db: Db, groups: seq<seq<UncommittedEvent>>)
    requires groups != [] && groups[0] != []
    requires At(s, w, db, Writer(groups, Deciding(GetVersion(db, groups[0][0].sourceId))))
    ensures var es, r := groups[0], StoreGroup(db, groups[0]);
      var recorded := db.(versions := db.versions[es[0].sourceId := NewVersion(es)]);
      && (r.outcome != Stored ==> At(Alone(s, w, 1), w, db, Writer(groups, Stopped(Ended(r.outcome)))) && r.db == db)
      && (r.outcome == Stored ==> At(Alone(s, w, 1), w, recorded, Writer(groups, Saving(0))) &&
                                  r.db == SaveEvents(recorded, es))
  {
    assert Alone(s, w, 1) == Next(Alone(s, w, 0), Progress(w));
  }

  lemma SaveAlone(s: State, w: nat, db: Db, groups: seq<seq<UncommittedEvent>>, k: nat)
    requires groups != [] && k < |groups[0]| && At(s, w, db, Writer(groups, Saving(k)))
    ensures At(Alone(s, w, 2), w, SaveEvent(db, groups[0][k]),
               if k + 1 < |groups[0]| then Writer(groups, Saving(k + 1)) else Writer(groups[1..], Reading))
  {
    var one := Next(s, Progress(w));
    assert Alone(s, w, 0) == s && Alone(s, w, 1) == one && Alone(s, w, 2) == Next(one, Progress(w));
    assert At(one, w, NextSequence(db), Writer(groups, Inserting(k, db.counter + 1)));
  }

  /** The saving loop: after two operations per event, so many events are in. */
  lemma {:induction false} SavingAlone(s: State, w: nat, db: Db, groups: seq<seq<UncommittedEvent>>, k: nat)
    requires groups != [] && groups[0] != [] && k <= |groups[0]|
    requires At(s, w, db, Writer(groups, Saving(0)))
    ensures At(Alone(s, w, 2 * k), w, SaveEvents(db, groups[0][..k]),
               if k < |groups[0]| then Writer(groups, Saving(k)) else Writer(groups[1..], Reading))
  {
    if k > 0 {
      SavingAlone(s, w, db, groups, k - 1);
      assert groups[0][..k][..k - 1] == groups[0][..k - 1];
      SaveAlone(Alone(s, w, 2 * (k - 1)), w, SaveEvents(db, groups[0][..k - 1]), groups, k - 1);
      AloneAgain(s, w, 2 * (k - 1), 2);
    }
  }

  /** One group: the writer is through with it and ready for the next, or stopped, with the database StoreGroup
      gives. */
  lemma {:induction false} GroupAlone(s: State, w: nat, db: Db, groups: seq<seq<UncommittedEvent>>) returns (n: nat)
    requires groups != [] && groups[0] != []
    requires At(s, w, db, Writer(groups, Reading))
    ensures var r := StoreGroup(db, groups[0]);
      At(Alone(s, w, n), w, r.db,
         if r.outcome == Stored then Writer(groups[1..], Reading) else Writer(groups, Stopped(Ended(r.outcome))))
  {
    ReadAlone(s, w, db, groups);
    DecideAlone(Alone(s, w, 1), w, db, groups);
    AloneAgain(s, w, 1, 1);
    n := 2;
    if StoreGroup(db, groups[0]).outcome == Stored {
      var es := groups[0];
      var recorded := db.(versions := db.versions[es[0].sourceId := NewVersion(es)]);
      SavingAlone(Alone(s, w, 2), w, recorded, groups, |es|);
      assert es[..|es|] == es;
      AloneAgain(s, w, 2, 2 * |es|);
      n := 2 + 2 * |es|;
    }
  }

  lemma FinishAlone(s: State, w: nat, db: Db)
    requires At(s, w, db, Writer([], Reading))
    ensures At(Alone(s, w, 1), w, db, Writer([], Stopped(Ended(Stored))))
  {
    assert Alone(s, w, 1) == Next(Alone(s, w, 0), Progress(w));
  }

  lemma {:induction false} GroupsAlone(s: State, w: nat, db: Db, groups: seq<seq<UncommittedEvent>>) returns (n: nat)
    requires forall i | 0 <= i < |groups| :: groups[i] != []
    requires At(s, w, db, Writer(groups, Reading))
    ensures w < |Alone(s, w, n).writers|
    ensures Alone(s, w, n).writers[w].phase == Stopped(Ended(StoreGroups(db, groups).outcome))
    ensures Alone(s, w, n).db == StoreGroups(db, groups).db
    decreases |groups|
  {
    if groups == [] {
      n := 1;
      FinishAlone(s, w, db);
    } else {
      StoreFirstGroup(db, groups);
      var m := GroupAlone(s, w, db, groups);
      var r := StoreGroup(db, groups[0]);
      if r.outcome == Stored {
        var more := GroupsAlone(Alone(s, w, m), w, r.db, groups[1..]);
        AloneAgain(s, w, m, more);
        n := m + more;
      } else {
        n := m;
      }
    }
  }

  /** When no group is refused, the writer ends with nothing left to store. */
  lemma {:induction false} GroupsStoredAlone(s: State, w: nat, db: Db, groups: seq<seq<UncommittedEvent>>)
    returns (n: nat)
    requires forall i | 0 <= i < |groups| :: groups[i] != []
    requires At(s, w, db, Writer(groups, Reading)) && StoreGroups(db, groups).outcome == Stored
    ensures At(Alone(s, w, n), w, StoreGroups(db, groups).db, Writer([], Reading))
    decreases |groups|
  {
    if groups == [] {
      n := 0;
    } else {
      StoreFirstGroup(db, groups);
      var m := GroupAlone(s, w, db, groups);
      var more := GroupsStoredAlone(Alone(s, w, m), w, StoreGroup(db, groups[0]).db, groups[1..]);
      AloneAgain(s, w, m, more);
      n := m + more;
    }
  }

  /** A unit of work that begins and is left alone ends with exactly the outcome, exception included, and the database
      of the sequential Store. */
  lemma {:induction false} LeftAloneIsStore(s: State, stream: seq<UncommittedEvent>) returns (n: nat)
    requires IsLoaded(s, stream)
    ensures var w := |s.writers|;
      var ended := Alone(Next(s, Begin(stream)), w, n);
      && w < |ended.writers| && ended.db == Store(s.db, stream).db
      && ended.writers[w].phase == Stopped(Ended(Store(s.db, stream).outcome))
  {
    n := GroupsAlone(Next(s, Begin(stream)), |s.writers|, s.db, GroupBySource(stream));
  }

  // ----- One batch -----

  lemma OneBatchMayBegin(s: State, es: seq<UncommittedEvent>)
    requires IsBatch(es) && Loadable(s.db, es[0].sourceId, es[0].initialVersion)
    ensures IsLoaded(s, es) && GroupBySource(es) == [es]
  {
    OfSingleSource(es, es[0].sourceId);
    SingleSourceIsOneGroup(s.db, es);
    assert forall i | 0 <= i < |es| :: es[i].sourceId == es[0].sourceId;
  }

  lemma OneBatchIsGapless(es: seq<UncommittedEvent>)
    requires IsBatch(es) && IsGapless(es, es[0].initialVersion)
    ensures GaplessStream(es)
  {
    OfSingleSource(es, es[0].sourceId);
    assert forall i | 0 <= i < |es| :: es[i].sourceId == es[0].sourceId;
  }

  lemma OneBatchIsStored(db: Db, es: seq<UncommittedEvent>)
    requires IsBatch(es) && Accepts(db, es)
    ensures var id := es[0].sourceId;
      && StoredEvents(Store(db, es).db.events, id) == StoredEvents(db.events, id) + AllCommitted(es)
      && GetVersion(Store(db, es).db, id) == Some(NewVersion(es))
  {
    SingleSourceIsOneGroup(db, es);
    StoredGroup(db, es, es[0].sourceId);
  }
}
