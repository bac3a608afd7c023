/** InMemoryBufferedBrowsableElementStore: fetch from a persistent log first, then only from memory. */
module BufferedStore {
  import opened Common
  import opened ChunkBuffer

  /** Entries are named by their unique ids. The first group is the store's own fields; `log` and `cursor` are the
      persistent store; the rest is the history: what each source handed out, and what was pushed. */
  datatype Buffered = Buffered(
    fetchSize: int,
    inMemoryMode: bool,
    firstElementPushed: Option<Id>,
    storage: seq<seq<Id>>,
    log: seq<Id>,
    cursor: nat,
    fromLog: seq<Id>,
    fromMemory: seq<Id>,
    pushed: seq<Id>)

  function Init(fetchSize: int, log: seq<Id>, cursor: nat): Buffered {
    Buffered(fetchSize, false, None, [[]], log, cursor, [], [], [])
  }

  datatype Step =
    | Commit(id: Id)             // the log grows at its end
    | Push(index: nat)           // the event handler hands over one entry of the log
    | Fetch(maxCount: int, batch: nat)  // `batch`: how many the persistent store wants to return

  /** What a persistent store asked for `maxCount` may return of what is left: nothing when asked for less than one,
      and otherwise nothing only when nothing is left. It may return more than it was asked for. */
  predicate MayReturn(maxCount: int, remaining: nat, n: nat) {
    n <= remaining && (n == 0 <==> maxCount < 1 || remaining == 0)
  }

  function BatchSize(s: Buffered, batch: nat): (n: nat)
    requires s.cursor <= |s.log|
    ensures MayReturn(s.fetchSize, |s.log| - s.cursor, n)
    ensures MayReturn(s.fetchSize, |s.log| - s.cursor, batch) ==> n == batch
  {
    var remaining := |s.log| - s.cursor;
    if s.fetchSize < 1 || remaining == 0 then 0
    else if batch == 0 then 1
    else if batch < remaining then batch else remaining
  }

  /** `since`: entries before this position were committed before the handler was registered, and are never
      pushed; every later one is pushed once, at any later time and in any order. */
  function Next(since: nat, s: Buffered, step: Step): Buffered
    requires s.cursor <= |s.log| && s.storage != []
  {
    match step
    case Commit(id) => if id in s.log then s else s.(log := s.log + [id])
    case Push(index) =>
      if since <= index < |s.log| && s.log[index] !in s.pushed then PushStep(s, s.log[index]) else s
    case Fetch(maxCount, batch) => FetchStep(s, maxCount, batch)
  }

  function FetchStep(s: Buffered, maxCount: int, batch: nat): Buffered
    requires s.cursor <= |s.log| && s.storage != []
  {
    if maxCount != s.fetchSize then s  // NotSupportedException
    else if s.inMemoryMode then FetchFromBuffer(s)
    else FetchFromLog(s, BatchSize(s, batch))
  }

  function PushStep(s: Buffered, id: Id): Buffered
    requires s.storage != []
  {
    s.(storage := AppendStep(s.fetchSize, s.storage, id),
       firstElementPushed := if s.firstElementPushed.None? then Some(id) else s.firstElementPushed,
       pushed := s.pushed + [id])
  }

  function FetchFromBuffer(s: Buffered): Buffered
    requires s.storage != []
  {
    s.(storage := TakeStep(s.storage), fromMemory := s.fromMemory + s.storage[0])
  }

  /** CorrelateWithBuffer. */
  predicate Correlates(s: Buffered, batch: seq<Id>) {
    s.firstElementPushed.Some? && s.firstElementPushed.value in batch
  }

  function FetchFromLog(s: Buffered, n: nat): Buffered
    requires s.cursor + n <= |s.log|
  {
    var batch := s.log[s.cursor..s.cursor + n];
    s.(cursor := s.cursor + n,
       inMemoryMode := batch == [] || Correlates(s, batch),
       fromLog := s.fromLog + batch)
  }

  ghost predicate NoRepeats(ids: seq<Id>) {
    forall i, j | 0 <= i < j < |ids| :: ids[i] != ids[j]
  }

  function Run(fetchSize: int, log: seq<Id>, start: nat, steps: seq<Step>): (s: Buffered)
    requires start <= |log|
    ensures s.cursor <= |s.log| && s.storage != []
  {
    if steps == [] then Init(fetchSize, log, start)
    else Next(|log|, Run(fetchSize, log, start, steps[..|steps| - 1]), steps[|steps| - 1])
  }

  /** Nothing past the start is lost: entry `i` was returned, is buffered, is yet to be pushed, or lies ahead of the
      persistent cursor while that is still read. */
  ghost predicate Accounted(s: Buffered, since: nat, i: nat)
    requires i < |s.log|
  {
    || s.log[i] in s.fromLog + s.fromMemory
    || s.log[i] in Flatten(s.storage)
    || (since <= i && s.log[i] !in s.pushed)
    || (!s.inMemoryMode && s.cursor <= i)
  }

  ghost predicate NothingLost(s: Buffered, start: nat, since: nat) {
    forall i: nat | start <= i < |s.log| :: Accounted(s, since, i)
  }

  ghost predicate Invariant(s: Buffered, start: nat, since: nat) {
    && NoRepeats(s.log) && start <= s.cursor <= |s.log| && since <= |s.log|
    && s.fromLog == s.log[start..s.cursor]
    && WellFormed(s.fetchSize, s.storage) && s.fromMemory + Flatten(s.storage) == s.pushed
    && (forall id | id in s.pushed :: id in s.log[since..])
    && NoRepeats(s.pushed)
    && s.firstElementPushed == (if s.pushed == [] then None else Some(s.pushed[0]))
    && (!s.inMemoryMode ==> s.fromMemory == [])
    && (s.inMemoryMode ==> since <= s.cursor)
  }

  lemma PushKeeps(s: Buffered, start: nat, since: nat, index: nat)
    requires Invariant(s, start, since) && since <= index < |s.log| && s.log[index] !in s.pushed
    ensures Invariant(PushStep(s, s.log[index]), start, since)
  {
    AppendIsLast(s.fetchSize, s.storage, s.log[index]);
    assert s.log[index] == s.log[since..][index - since];
    assert s.fromMemory + (Flatten(s.storage) + [s.log[index]]) == s.pushed + [s.log[index]];
  }

  lemma CommitKeeps(s: Buffered, start: nat, since: nat, id: Id)
    requires Invariant(s, start, since) && id !in s.log
    ensures Invariant(s.(log := s.log + [id]), start, since)
  {
    var log' := s.log + [id];
    assert log'[since..] == s.log[since..] + [id];
    assert log'[start..s.cursor] == s.log[start..s.cursor];
  }

  /** Both switch conditions leave only entries ahead that are pushed. */
  lemma FetchFromLogKeeps(s: Buffered, start: nat, since: nat, batch: nat)
    requires Invariant(s, start, since) && s.fetchSize >= 1 && !s.inMemoryMode
    ensures Invariant(FetchFromLog(s, BatchSize(s, batch)), start, since)
  {
    var n := BatchSize(s, batch);
    var fetched := s.log[s.cursor..s.cursor + n];
    assert s.log[start..s.cursor] + fetched == s.log[start..s.cursor + n];
    if Correlates(s, fetched) {
      FirstPushedIsNew(s, since, s.firstElementPushed.value, s.cursor + n);
    }
  }

  lemma FirstPushedIsNew(s: Buffered, since: nat, id: Id, end: nat)
    requires NoRepeats(s.log) && since <= |s.log| && s.cursor <= end <= |s.log|
    requires id in s.log[since..] && id in s.log[s.cursor..end]
    ensures since < end
  {
    var i :| 0 <= i < |s.log[since..]| && s.log[since..][i] == id;
    var j :| 0 <= j < |s.log[s.cursor..end]| && s.log[s.cursor..end][j] == id;
    assert s.log[since + i] == s.log[s.cursor + j];
  }

  lemma NextKeeps(s: Buffered, start: nat, since: nat, step: Step)
    requires Invariant(s, start, since) && s.fetchSize >= 1
    ensures Invariant(Next(since, s, step), start, since)
  {
    match step
    case Commit(id) => if id !in s.log { CommitKeeps(s, start, since, id); }
    case Push(index) =>
      if since <= index < |s.log| && s.log[index] !in s.pushed { PushKeeps(s, start, since, index); }
    case Fetch(maxCount, batch) =>
      if maxCount == s.fetchSize {
        if s.inMemoryMode {
          TakeIsFirst(s.fetchSize, s.storage);
          Regroup(s.fromMemory, s.storage[0], Flatten(TakeStep(s.storage)));
        } else {
          FetchFromLogKeeps(s, start, since, batch);
        }
      }
  }

  lemma {:induction false} RunKeeps(fetchSize: int, log: seq<Id>, start: nat, steps: seq<Step>)
    requires fetchSize >= 1 && NoRepeats(log) && start <= |log|
    ensures Invariant(Run(fetchSize, log, start, steps), start, |log|)
    ensures Run(fetchSize, log, start, steps).fetchSize == fetchSize
  {
    if steps == [] {
      assert Flatten<Id>([[]]) == [];
    } else {
      RunKeeps(fetchSize, log, start, steps[..|steps| - 1]);
      NextKeeps(Run(fetchSize, log, start, steps[..|steps| - 1]), start, |log|, steps[|steps| - 1]);
    }
  }

  lemma InvariantLosesNothing(s: Buffered, start: nat, since: nat)
    requires Invariant(s, start, since)
    ensures NothingLost(s, start, since)
  {
    forall i: nat | start <= i < |s.log|
      ensures Accounted(s, since, i)
    {
      if i < s.cursor {
        assert s.log[start..s.cursor][i - start] == s.log[i];
      } else if s.inMemoryMode && s.log[i] in s.pushed {
        assert s.log[i] in s.fromMemory + Flatten(s.storage);
      }
    }
  }

  /** The log is handed out in order from the start, the memory in push order, and nothing is lost in between. */
  lemma SwitchLosesNothing(fetchSize: int, log: seq<Id>, start: nat, steps: seq<Step>)
    requires fetchSize >= 1 && NoRepeats(log) && start <= |log|
    ensures var s := Run(fetchSize, log, start, steps);
      && NothingLost(s, start, |log|)
      && start <= s.cursor && s.fromLog == s.log[start..s.cursor]
      && s.fromMemory + Flatten(s.storage) == s.pushed
  {
    RunKeeps(fetchSize, log, start, steps);
    InvariantLosesNothing(Run(fetchSize, log, start, steps), start, |log|);
  }

  /** The entry was handed out by the persistent store, and the memory holds it or has handed it out as well. */
  predicate FromBoth(s: Buffered, id: Id) {
    id in s.fromLog && id in s.fromMemory + Flatten(s.storage)
  }

  /** An entry comes from both sources exactly when it was pushed and the persistent cursor had got past it; from each
      source it comes once. */
  lemma TwiceExactlyWhenPushedBeforeCursor(fetchSize: int, log: seq<Id>, start: nat, steps: seq<Step>, i: nat)
    requires fetchSize >= 1 && NoRepeats(log) && start <= |log|
    ensures var s := Run(fetchSize, log, start, steps);
      && NoRepeats(s.fromLog) && NoRepeats(s.fromMemory + Flatten(s.storage))
      && (i < |s.log| ==> (FromBoth(s, s.log[i]) <==> start <= i < s.cursor && s.log[i] in s.pushed))
  {
    RunKeeps(fetchSize, log, start, steps);
    var s := Run(fetchSize, log, start, steps);
    assert forall j | 0 <= j < |s.fromLog| :: s.fromLog[j] == s.log[start + j];
    if start <= i < s.cursor {
      assert s.fromLog[i - start] == s.log[i];
    }
  }

  /** The next `n` entries of the log, with the one that was pushed first among them. */
  predicate HasFirstPushed(s: Buffered, n: nat) {
    s.pushed != [] && s.cursor + n <= |s.log| && s.pushed[0] in s.log[s.cursor..s.cursor + n]
  }

  /** The switch, over all runs: a fetch from the log ends in memory mode exactly when it found nothing or the entry
      that was pushed first; nothing else switches, and there is no way back. */
  lemma SwitchesExactlyOnEmptyOrFirstPushed(fetchSize: int, log: seq<Id>, start: nat, steps: seq<Step>, step: Step)
    requires fetchSize >= 1 && NoRepeats(log) && start <= |log|
    ensures var s, s' := Run(fetchSize, log, start, steps), Next(|log|, Run(fetchSize, log, start, steps), step);
      && (s.inMemoryMode ==> s'.inMemoryMode && s'.fromLog == s.fromLog && s'.cursor == s.cursor)
      && (!s.inMemoryMode && !(step.Fetch? && step.maxCount == fetchSize) ==>
            !s'.inMemoryMode && s'.fromLog == s.fromLog && s'.cursor == s.cursor)
      && (!s.inMemoryMode && step.Fetch? && step.maxCount == fetchSize ==>
            var n := s'.cursor - s.cursor;
            && n >= 0 && s'.fromLog == s.fromLog + s.log[s.cursor..s'.cursor]
            && (n == 0 <==> s.cursor == |s.log|)
            && (s'.inMemoryMode <==> n == 0 || HasFirstPushed(s, n)))
  {
    RunKeeps(fetchSize, log, start, steps);
  }

  /** The switch on meeting the entry that was pushed first always hands that one out twice: the log has just returned
      it, and it is the first the memory will return. */
  lemma CorrelationHandsOutTwice(fetchSize: int, log: seq<Id>, start: nat, steps: seq<Step>, batch: nat)
    requires fetchSize >= 1 && NoRepeats(log) && start <= |log|
    ensures var s := Run(fetchSize, log, start, steps);
      var n := BatchSize(s, batch);
      !s.inMemoryMode && HasFirstPushed(s, n) ==>
        var s' := FetchFromLog(s, n);
        && s'.inMemoryMode && s'.pushed != [] && s'.fromMemory == [] && Flatten(s'.storage) == s'.pushed
        && s'.storage[0] != [] && s'.storage[0][0] == s'.pushed[0] && FromBoth(s', s'.pushed[0])
  {
    RunKeeps(fetchSize, log, start, steps);
    var s := Run(fetchSize, log, start, steps);
    if !s.inMemoryMode && HasFirstPushed(s, BatchSize(s, batch)) {
      assert s.fromMemory + Flatten(s.storage) == Flatten(s.storage);
      TakeIsFirst(s.fetchSize, s.storage);
      assert (s.storage[0] + Flatten(TakeStep(s.storage)))[0] == s.storage[0][0];
    }
  }

  /** It takes a positive fetch size: with any other the first, empty batch switches to memory at once. */
  lemma NothingLostExactlyForPositiveFetchSize(fetchSize: int)
    ensures fetchSize >= 1 <==>
      forall log, start: nat, steps | NoRepeats(log) && start <= |log| ::
        NothingLost(Run(fetchSize, log, start, steps), start, |log|)
  {
    if fetchSize >= 1 {
      forall log, start: nat, steps: seq<Step> | NoRepeats(log) && start <= |log|
        ensures NothingLost(Run(fetchSize, log, start, steps), start, |log|)
      {
        SwitchLosesNothing(fetchSize, log, start, steps);
      }
    } else {
      EmptyBatchLoses(fetchSize);
    }
  }

  lemma EmptyBatchLoses(fetchSize: int)
    requires fetchSize < 1
    ensures exists log, start: nat, steps ::
      NoRepeats(log) && start <= |log| && !NothingLost(Run(fetchSize, log, start, steps), start, |log|)
  {
    var log: seq<Id>, steps: seq<Step> := ["a"], [Fetch(fetchSize, 1)];
    assert steps[..|steps| - 1] == [] && Run(fetchSize, log, 0, []) == Init(fetchSize, log, 0);
    var s := Run(fetchSize, log, 0, steps);
    assert s == FetchFromLog(Init(fetchSize, log, 0), 0);
    assert Flatten<Id>([[]]) == [] && s.fromLog + s.fromMemory == [];
    assert !Accounted(s, 1, 0);
    assert NoRepeats(log) && !NothingLost(s, 0, |log|);
  }

  // ----- The stores as the classes they are -----

  /** Any browsable store over an append-only log: how much it returns is its own choice, but it returns something as
      long as something is left. */
  class PersistentStore {
    var log: seq<Id>
    var cursor: nat

    constructor (log: seq<Id>, cursor: nat)
      requires cursor <= |log|
      ensures this.log == log && this.cursor == cursor
    {
      this.log := log;
      this.cursor := cursor;
    }

    method Fetch(maxCount: int) returns (batch: seq<Id>)
      requires cursor <= |log|
      modifies this
      ensures log == old(log) && old(cursor) <= cursor <= |log| && batch == log[old(cursor)..cursor]
      ensures MayReturn(maxCount, |log| - old(cursor), |batch|)
    {
      var nothing := maxCount < 1 || cursor == |log|;
      var n: nat :| n <= |log| - cursor && (n == 0 <==> nothing);
      batch := log[cursor..cursor + n];
      cursor := cursor + n;
    }
  }

  datatype FetchResult = Fetched(batch: seq<Id>) | NotSupported

  class InMemoryBufferedBrowsableElementStore {
    var inMemoryMode: bool
    var firstElementPushed: Option<Id>
    const buffer: FixedSizeChunkBuffer<Id>
    const persistentStore: PersistentStore
    const fetchSize: int
    ghost var View: Buffered

    ghost predicate Valid()
      reads this, persistentStore, buffer, buffer.storage
    {
      buffer.Valid() && buffer.chunkSize == fetchSize && View.storage == buffer.View() && Linked()
    }

    /** All of it but the buffer. */
    ghost predicate Linked()
      reads this, persistentStore
    {
      && persistentStore.cursor <= |persistentStore.log|
      && View.fetchSize == fetchSize && View.inMemoryMode == inMemoryMode
      && View.firstElementPushed == firstElementPushed
      && View.log == persistentStore.log && View.cursor == persistentStore.cursor
    }

    constructor (persistentStore: PersistentStore, fetchSize: int)
      requires persistentStore.cursor <= |persistentStore.log|
      ensures Valid() && fresh(buffer) && fresh(buffer.storage) && this.persistentStore == persistentStore
      ensures View == Init(fetchSize, persistentStore.log, persistentStore.cursor)
    {
      this.persistentStore := persistentStore;
      this.fetchSize := fetchSize;
      buffer := new FixedSizeChunkBuffer(fetchSize);
      inMemoryMode, firstElementPushed := false, None;
      View := Init(fetchSize, persistentStore.log, persistentStore.cursor);
    }

    /** `chosen`: how many the persistent store chose to return. */
    method Fetch(maxCount: int) returns (r: FetchResult, ghost chosen: nat)
      requires Valid()
      modifies this, persistentStore, buffer
      ensures Valid() && forall c | c in buffer.storage :: c in old(buffer.storage) || fresh(c)
      ensures View == FetchStep(old(View), maxCount, chosen)
      ensures r == if maxCount != fetchSize then NotSupported
                   else if old(View).inMemoryMode then Fetched(old(View).storage[0])
                   else Fetched(View.log[old(View).cursor..View.cursor])
      ensures r.NotSupported? ==> View == old(View)
      ensures r.Fetched? ==>
        if old(View).inMemoryMode then
          View.fromMemory == old(View).fromMemory + r.batch && View.fromLog == old(View).fromLog
        else View.fromLog == old(View).fromLog + r.batch && View.fromMemory == old(View).fromMemory
    {
      if fetchSize != maxCount {
        return NotSupported, 0;
      }
      var batch;
      if inMemoryMode {
        batch := FetchFromMemory();
      } else {
        batch := FetchFromPersistentStoreAndCorrelateWithBuffer();
      }
      r, chosen := Fetched(batch), |batch|;
    }

    method FetchFromMemory() returns (batch: seq<Id>)
      requires Valid()
      modifies this, buffer
      ensures Valid() && forall c | c in buffer.storage :: c in old(buffer.storage) || fresh(c)
      ensures View == FetchFromBuffer(old(View)) && batch == old(View).storage[0]
    {
      var chunk := buffer.TakeOne();
      batch := chunk.items;
      View := FetchFromBuffer(View);
    }

    method FetchFromPersistentStoreAndCorrelateWithBuffer() returns (batch: seq<Id>)
      requires Valid() && !inMemoryMode
      modifies this, persistentStore
      ensures Valid() && |batch| == BatchSize(old(View), |batch|)
      ensures View == FetchFromLog(old(View), |batch|)
      ensures batch == old(View).log[old(View).cursor..old(View).cursor + |batch|]
    {
      batch := FetchAndCorrelate();
      assert buffer.View() == old(buffer.View());
    }

    method FetchAndCorrelate() returns (batch: seq<Id>)
      requires Linked() && !inMemoryMode
      modifies this, persistentStore
      ensures Linked() && |batch| == BatchSize(old(View), |batch|)
      ensures View == FetchFromLog(old(View), |batch|)
      ensures batch == old(View).log[old(View).cursor..old(View).cursor + |batch|]
    {
      batch := persistentStore.Fetch(fetchSize);
      if batch == [] || CorrelateWithBuffer(batch) {
        inMemoryMode := true;
      }
      View := FetchFromLog(View, |batch|);
    }

    predicate CorrelateWithBuffer(batch: seq<Id>)
      reads this
    {
      firstElementPushed.Some? && firstElementPushed.value in batch
    }

    method PushElement(id: Id)
      requires Valid()
      modifies this, buffer, buffer.storage[|buffer.storage| - 1]
      ensures Valid() && forall c | c in buffer.storage :: c in old(buffer.storage) || fresh(c)
      ensures View == PushStep(old(View), id)
      ensures View.pushed == old(View).pushed + [id] && Flatten(View.storage) == Flatten(old(View).storage) + [id]
    {
      AppendIsLast(fetchSize, View.storage, id);
      buffer.Append(id);
      EnsureFirstPushedElementMarked(id);
      assert buffer.View() == View.storage;
    }

    method EnsureFirstPushedElementMarked(id: Id)
      requires Linked() && View.storage != []
      modifies this
      ensures Linked() && View == PushStep(old(View), id)
    {
      if firstElementPushed.None? {
        firstElementPushed := Some(id);
      }
      View := PushStep(View, id);
    }
  }
}
