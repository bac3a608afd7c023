/** CursorPositionCalculator: how far an unbroken run of processed elements reaches. */
module CursorPosition {
  import opened Common
  import opened Elements

  /** The calculator's fields; `pending` is its sorted dictionary of elements not in sequence. */
  datatype Cursor = Cursor(last: int, lastId: Option<Id>, count: int, sequenceLength: int, pending: map<int, Id>)

  function New(start: int): Cursor {
    Cursor(start, None, 0, 0, map[])
  }

  /** The smallest pending number is the one right after the run. */
  predicate FirstIsNext(c: Cursor) {
    c.last + 1 in c.pending && forall k | k in c.pending :: c.last + 1 <= k
  }

  function AbsorbOne(c: Cursor): Cursor
    requires FirstIsNext(c)
  {
    Cursor(c.last + 1, Some(c.pending[c.last + 1]), c.count, c.sequenceLength + 1, c.pending - {c.last + 1})
  }

  function Absorb(c: Cursor): Cursor
    decreases |c.pending|
  {
    if FirstIsNext(c) then
      RemovalShrinks(c.pending, c.last + 1);
      Absorb(AbsorbOne(c))
    else c
  }

  lemma RemovalShrinks(m: map<int, Id>, k: int)
    requires k in m
    ensures |m - {k}| < |m|
  {
    assert (m - {k}).Keys == m.Keys - {k};
    assert |m.Keys - {k}| < |m.Keys|;
  }

  /** The dictionary refuses a number it already holds. */
  predicate Faults(c: Cursor, e: Element) {
    e.sequenceNumber != c.last + 1 && e.sequenceNumber in c.pending
  }

  /** The run, one longer. */
  function Advance(c: Cursor, id: Id): Cursor {
    c.(last := c.last + 1, lastId := Some(id), count := c.count + 1, sequenceLength := c.sequenceLength + 1)
  }

  /** When `Append` faults it has already counted the element. */
  function AppendStep(c: Cursor, e: Element): Cursor {
    if e.sequenceNumber == c.last + 1 then
      Absorb(Advance(c, e.uniqueId))
    else if Faults(c, e) then
      c.(count := c.count + 1)
    else
      c.(count := c.count + 1, pending := c.pending[e.sequenceNumber := e.uniqueId])
  }

  function ClearStep(c: Cursor): Cursor {
    c.(count := c.count - c.sequenceLength, sequenceLength := 0)
  }

  // ----- The calculator as the class it is -----

  class CursorPositionCalculator {
    var lastEventInSequence: int
    var lastElementInSequenceId: Option<Id>
    var count: int
    var sequenceLength: int
    var elementsNotInSequence: map<int, Id>

    function View(): Cursor
      reads this
    {
      Cursor(lastEventInSequence, lastElementInSequenceId, count, sequenceLength, elementsNotInSequence)
    }

    constructor (startingSequenceNumber: int)
      ensures View() == New(startingSequenceNumber)
    {
      lastEventInSequence := startingSequenceNumber;
      lastElementInSequenceId := None;
      count, sequenceLength := 0, 0;
      elementsNotInSequence := map[];
    }

    /** `faulted` is the ArgumentException of the dictionary. */
    method Append(e: Element) returns (faulted: bool)
      modifies this
      ensures View() == AppendStep(old(View()), e)
      ensures faulted <==> Faults(old(View()), e)
    {
      count := count + 1;
      if e.sequenceNumber == lastEventInSequence + 1 {
        lastEventInSequence := lastEventInSequence + 1;
        sequenceLength := sequenceLength + 1;
        lastElementInSequenceId := Some(e.uniqueId);
        ProcessEventsNotInSequence();
      } else if e.sequenceNumber in elementsNotInSequence {
        return true;
      } else {
        elementsNotInSequence := elementsNotInSequence[e.sequenceNumber := e.uniqueId];
      }
      faulted := false;
    }

    method ProcessEventsNotInSequence()
      modifies this
      ensures View() == Absorb(old(View()))
    {
      while FirstIsNext(View())
        invariant Absorb(View()) == Absorb(old(View()))
        decreases |elementsNotInSequence|
      {
        RemovalShrinks(elementsNotInSequence, lastEventInSequence + 1);
        var next := lastEventInSequence + 1;
        lastEventInSequence := lastEventInSequence + 1;
        lastElementInSequenceId := Some(elementsNotInSequence[next]);
        sequenceLength := sequenceLength + 1;
        elementsNotInSequence := elementsNotInSequence - {next};
      }
    }

    method ClearSequence()
      modifies this
      ensures View() == ClearStep(old(View()))
    {
      count := count - sequenceLength;
      sequenceLength := 0;
    }
  }

  // ----- What the calculator promises -----

  /** The end of the longest unbroken run of numbers of `s` that begins right after `start`. */
  function RunEnd(start: int, s: set<int>): (end: int)
    ensures start <= end && end + 1 !in s
    ensures forall k | start < k <= end :: k in s
    decreases |s|
  {
    if start + 1 in s then
      var end := RunEnd(start + 1, s - {start + 1});
      assert forall k {:trigger k in s} | start < k <= end :: k == start + 1 || k in s - {start + 1};
      end
    else start
  }

  lemma RunEndUnique(start: int, s: set<int>, end: int)
    requires start <= end && end + 1 !in s && forall k | start < k <= end :: k in s
    ensures end == RunEnd(start, s)
  {
    var r := RunEnd(start, s);
    assert r < end ==> r + 1 in s;
    assert end < r ==> end + 1 in s;
  }

  datatype Op = Add(element: Element) | ClearRun

  function Run(c: Cursor, ops: seq<Op>): Cursor {
    if ops == [] then c
    else
      var before := Run(c, ops[..|ops| - 1]);
      match ops[|ops| - 1]
      case Add(e) => AppendStep(before, e)
      case ClearRun => ClearStep(before)
  }

  /** Number to id of everything appended. */
  function Appended(ops: seq<Op>): map<int, Id> {
    if ops == [] then map[]
    else
      var before := Appended(ops[..|ops| - 1]);
      match ops[|ops| - 1]
      case Add(e) => before[e.sequenceNumber := e.uniqueId]
      case ClearRun => before
  }

  /** The position right after the most recent clear. */
  function ClearedAt(start: int, ops: seq<Op>): int {
    if ops == [] then start
    else if ops[|ops| - 1].ClearRun? then Run(New(start), ops).last
    else ClearedAt(start, ops[..|ops| - 1])
  }

  /** Every appended number is new and above the start. */
  predicate Distinct(start: int, ops: seq<Op>) {
    ops == [] ||
    (Distinct(start, ops[..|ops| - 1]) &&
     (ops[|ops| - 1].Add? ==>
        start < ops[|ops| - 1].element.sequenceNumber &&
        ops[|ops| - 1].element.sequenceNumber !in Appended(ops[..|ops| - 1])))
  }

  /** The entries of `m` numbered above `n`. */
  function Beyond(m: map<int, Id>, n: int): map<int, Id> {
    map k | k in m && n < k :: m[k]
  }

  /** `c` has seen exactly the elements of `m`: the run, what is pending beyond it, and the bookkeeping. */
  ghost predicate Tracks(c: Cursor, start: int, m: map<int, Id>) {
    && start <= c.last
    && (forall k | start < k <= c.last :: k in m)
    && c.pending == Beyond(m, c.last)
    && c.lastId == (if c.last == start then None else Some(m[c.last]))
    && c.count == c.sequenceLength + |c.pending|
  }

  lemma {:induction false} AbsorbTracks(c: Cursor, start: int, m: map<int, Id>)
    requires Tracks(c, start, m)
    ensures Tracks(Absorb(c), start, m) && Absorb(c).last + 1 !in m
    ensures Absorb(c).sequenceLength - c.sequenceLength == Absorb(c).last - c.last
    decreases |c.pending|
  {
    if FirstIsNext(c) {
      RemovalShrinks(c.pending, c.last + 1);
      assert |c.pending - {c.last + 1}| == |c.pending| - 1 by {
        assert (c.pending - {c.last + 1}).Keys == c.pending.Keys - {c.last + 1};
      }
      AbsorbTracks(AbsorbOne(c), start, m);
    }
  }

  /** Position, last id, pending elements and counters after any appends of new numbers mixed with clears. */
  lemma {:induction false} PositionIsRunEnd(start: int, ops: seq<Op>)
    requires Distinct(start, ops)
    ensures var c, m := Run(New(start), ops), Appended(ops);
      && c.last == RunEnd(start, m.Keys)
      && c.lastId == (if c.last == start then None else Some(m[c.last]))
      && c.pending == Beyond(m, c.last)
      && c.count == c.sequenceLength + |c.pending|
      && c.sequenceLength == c.last - ClearedAt(start, ops)
  {
    RunTracks(start, ops);
    RunEndUnique(start, Appended(ops).Keys, Run(New(start), ops).last);
  }

  lemma {:induction false} RunTracks(start: int, ops: seq<Op>)
    requires Distinct(start, ops)
    ensures Tracks(Run(New(start), ops), start, Appended(ops))
    ensures Run(New(start), ops).last + 1 !in Appended(ops)
    ensures Run(New(start), ops).sequenceLength == Run(New(start), ops).last - ClearedAt(start, ops)
  {
    if ops != [] {
      var before := ops[..|ops| - 1];
      RunTracks(start, before);
      OperationTracks(start, ops[..|ops| - 1], ops[|ops| - 1], Run(New(start), before));
      assert ops == before + [ops[|ops| - 1]];
    }
  }

  lemma OperationTracks(start: int, before: seq<Op>, op: Op, c: Cursor)
    requires Distinct(start, before + [op]) && c == Run(New(start), before)
    requires Tracks(c, start, Appended(before)) && c.last + 1 !in Appended(before)
    requires c.sequenceLength == c.last - ClearedAt(start, before)
    ensures TracksSince(Run(New(start), before + [op]), start, Appended(before + [op]), ClearedAt(start, before + [op]))
  {
    match op
    case Add(e) =>
      OneMoreAdd(start, before, e, c);
      AppendTracksSince(c, e, start, Appended(before), ClearedAt(start, before));
    case ClearRun =>
      OneMoreClear(start, before, c);
      assert TracksSince(ClearStep(c), start, Appended(before), c.last);
  }

  ghost predicate TracksSince(c: Cursor, start: int, m: map<int, Id>, cleared: int) {
    Tracks(c, start, m) && c.last + 1 !in m && c.sequenceLength == c.last - cleared
  }

  lemma AppendTracksSince(c: Cursor, e: Element, start: int, m: map<int, Id>, cleared: int)
    requires TracksSince(c, start, m, cleared) && start < e.sequenceNumber && e.sequenceNumber !in m
    ensures TracksSince(AppendStep(c, e), start, m[e.sequenceNumber := e.uniqueId], cleared)
  {
    AppendTracks(c, e, start, m);
  }

  lemma OneMoreAdd(start: int, before: seq<Op>, e: Element, c: Cursor)
    requires c == Run(New(start), before)
    ensures Run(New(start), before + [Add(e)]) == AppendStep(c, e)
    ensures Appended(before + [Add(e)]) == Appended(before)[e.sequenceNumber := e.uniqueId]
    ensures ClearedAt(start, before + [Add(e)]) == ClearedAt(start, before)
    ensures Distinct(start, before + [Add(e)]) ==> start < e.sequenceNumber && e.sequenceNumber !in Appended(before)
  {
    assert (before + [Add(e)])[..|before|] == before;
  }

  lemma OneMoreClear(start: int, before: seq<Op>, c: Cursor)
    requires c == Run(New(start), before)
    ensures Run(New(start), before + [ClearRun]) == ClearStep(c) && Appended(before + [ClearRun]) == Appended(before)
    ensures ClearedAt(start, before + [ClearRun]) == c.last
  {
    assert (before + [ClearRun])[..|before|] == before;
  }

  lemma AppendTracks(c: Cursor, e: Element, start: int, m: map<int, Id>)
    requires Tracks(c, start, m) && c.last + 1 !in m
    requires start < e.sequenceNumber && e.sequenceNumber !in m
    ensures !Faults(c, e)
    ensures var m' := m[e.sequenceNumber := e.uniqueId];
      Tracks(AppendStep(c, e), start, m') && AppendStep(c, e).last + 1 !in m'
    ensures AppendStep(c, e).sequenceLength - c.sequenceLength == AppendStep(c, e).last - c.last
  {
    if e.sequenceNumber == c.last + 1 {
      AdvanceTracks(c, start, m, e.uniqueId);
      AbsorbTracks(Advance(c, e.uniqueId), start, m[e.sequenceNumber := e.uniqueId]);
    } else {
      OutOfOrderTracks(c, e, start, m);
    }
  }

  lemma AdvanceTracks(c: Cursor, start: int, m: map<int, Id>, id: Id)
    requires Tracks(c, start, m) && c.last + 1 !in m
    ensures Tracks(Advance(c, id), start, m[c.last + 1 := id])
  {
    assert c.pending == Beyond(m[c.last + 1 := id], c.last + 1);
  }

  lemma OutOfOrderTracks(c: Cursor, e: Element, start: int, m: map<int, Id>)
    requires Tracks(c, start, m) && c.last + 1 !in m
    requires start < e.sequenceNumber && e.sequenceNumber !in m && e.sequenceNumber != c.last + 1
    ensures !Faults(c, e)
    ensures var m' := m[e.sequenceNumber := e.uniqueId];
      Tracks(AppendStep(c, e), start, m') && AppendStep(c, e).last + 1 !in m'
    ensures AppendStep(c, e).sequenceLength - c.sequenceLength == AppendStep(c, e).last - c.last
  {
    var n := e.sequenceNumber;
    assert n !in c.pending;
    assert c.pending[n := e.uniqueId] == Beyond(m[n := e.uniqueId], c.last);
    assert |c.pending[n := e.uniqueId]| == |c.pending| + 1;
  }

  /** No append of a new number faults. */
  lemma NoFaults(start: int, ops: seq<Op>, e: Element)
    requires Distinct(start, ops + [Add(e)])
    ensures !Faults(Run(New(start), ops), e)
  {
    assert (ops + [Add(e)])[..|ops|] == ops;
    RunTracks(start, ops);
    AppendTracks(Run(New(start), ops), e, start, Appended(ops));
  }

  /** An append throws exactly when the number was appended before and is beyond the unbroken run; then it is only
      counted. */
  lemma FaultsExactlyOnPending(start: int, ops: seq<Op>, e: Element)
    requires Distinct(start, ops)
    ensures var c, m := Run(New(start), ops), Appended(ops);
      && (Faults(c, e) <==> e.sequenceNumber in m && e.sequenceNumber > RunEnd(start, m.Keys))
      && (Faults(c, e) ==> AppendStep(c, e) == c.(count := c.count + 1))
  {
    PositionIsRunEnd(start, ops);
  }

  /** Position, last id and pending set depend on what was appended, not on the order or the clears. */
  lemma OrderDoesNotMatter(start: int, ops: seq<Op>, ops': seq<Op>)
    requires Distinct(start, ops) && Distinct(start, ops') && Appended(ops) == Appended(ops')
    ensures var c, c' := Run(New(start), ops), Run(New(start), ops');
      c.last == c'.last && c.lastId == c'.lastId && c.pending == c'.pending
  {
    PositionIsRunEnd(start, ops);
    PositionIsRunEnd(start, ops');
  }

  // ----- Numbers at or below the position -----

  /** `k` is pending although the position has passed it. */
  predicate Stale(c: Cursor, k: int) {
    k in c.pending && k <= c.last
  }

  predicate NothingStale(c: Cursor) {
    forall k | k in c.pending :: !Stale(c, k)
  }

  /** A stale number blocks absorption for good: through any operations it stays, so does everything pending, and the
      position moves by appends of exactly the next number only. */
  lemma {:induction false} StaleNumberBlocks(c: Cursor, k: int, ops: seq<Op>)
    requires Stale(c, k)
    ensures Stale(Run(c, ops), k) && c.last <= Run(c, ops).last
    ensures forall j | j in c.pending :: j in Run(c, ops).pending
    ensures ops != [] && ops[|ops| - 1].Add? ==>
      var before, e := Run(c, ops[..|ops| - 1]), ops[|ops| - 1].element;
      Run(c, ops).last == if e.sequenceNumber == before.last + 1 then before.last + 1 else before.last
  {
    if ops != [] {
      StaleNumberBlocks(c, k, ops[..|ops| - 1]);
      StaleStays(Run(c, ops[..|ops| - 1]), k, ops[|ops| - 1]);
    }
  }

  lemma StaleStays(c: Cursor, k: int, op: Op)
    requires Stale(c, k)
    ensures var c' := match op case Add(e) => AppendStep(c, e) case ClearRun => ClearStep(c);
      && Stale(c', k) && (forall j | j in c.pending :: j in c'.pending)
      && c'.last == if op.Add? && op.element.sequenceNumber == c.last + 1 then c.last + 1 else c.last
  {
    if op.Add? {
      assert Stale(Advance(c, op.element.uniqueId), k);
      assert !FirstIsNext(Advance(c, op.element.uniqueId));
    }
  }

  /** A number the calculator has already passed is what makes it so: appended again, in any state, it is pending from
      then on, and the position has not moved. */
  lemma {:induction false} PassedNumberStays(c: Cursor, e: Element, ops: seq<Op>)
    requires e.sequenceNumber <= c.last
    ensures var c' := AppendStep(c, e);
      && c'.last == c.last && e.sequenceNumber in Run(c', ops).pending && Stale(Run(c', ops), e.sequenceNumber)
  {
    StaleNumberBlocks(AppendStep(c, e), e.sequenceNumber, ops);
  }

  /** Position and pending numbers, whatever the ids and counters: the cursor has seen exactly `s` above `start`. */
  ghost predicate Covers(c: Cursor, start: int, s: set<int>) {
    start <= c.last && (forall k | start < k <= c.last :: k in s) && c.pending.Keys == set k | k in s && c.last < k
  }

  lemma {:induction false} AbsorbCovers(c: Cursor, start: int, s: set<int>)
    requires Covers(c, start, s)
    ensures Covers(Absorb(c), start, s) && Absorb(c).last + 1 !in s
    decreases |c.pending|
  {
    if FirstIsNext(c) {
      RemovalShrinks(c.pending, c.last + 1);
      assert AbsorbOne(c).pending.Keys == c.pending.Keys - {c.last + 1};
      AbsorbCovers(AbsorbOne(c), start, s);
    }
  }

  lemma AppendCovers(c: Cursor, e: Element, start: int, s: set<int>)
    requires Covers(c, start, s) && c.last + 1 !in s && start < e.sequenceNumber && e.sequenceNumber !in s
    ensures Covers(AppendStep(c, e), start, s + {e.sequenceNumber})
    ensures AppendStep(c, e).last + 1 !in s + {e.sequenceNumber}
  {
    if e.sequenceNumber == c.last + 1 {
      AbsorbCovers(Advance(c, e.uniqueId), start, s + {e.sequenceNumber});
    }
  }

  /** Numbers the cursor has neither passed nor pending, each once. */
  predicate NewNumbers(c: Cursor, ops: seq<Op>) {
    Distinct(c.last, ops) && forall k | k in Appended(ops) :: k !in c.pending
  }

  /** The position is where the unbroken run of all numbers seen ends. */
  ghost predicate AtRunEnd(c: Cursor, ops: seq<Op>) {
    Run(c, ops).last == RunEnd(c.last, c.pending.Keys + Appended(ops).Keys)
  }

  lemma {:induction false} ContinuesRun(c: Cursor, ops: seq<Op>)
    requires NothingStale(c) && c.last + 1 !in c.pending && NewNumbers(c, ops)
    ensures var s := c.pending.Keys + Appended(ops).Keys;
      Covers(Run(c, ops), c.last, s) && Run(c, ops).last + 1 !in s
  {
    if ops != [] {
      var before := ops[..|ops| - 1];
      assert forall k | k in Appended(before) :: k in Appended(ops);
      ContinuesRun(c, before);
      match ops[|ops| - 1]
      case Add(e) =>
        var s := c.pending.Keys + Appended(before).Keys;
        assert c.pending.Keys + Appended(ops).Keys == s + {e.sequenceNumber};
        AppendCovers(Run(c, before), e, c.last, s);
      case ClearRun =>
    }
  }

  lemma {:induction false} AbsorbStops(c: Cursor)
    ensures !FirstIsNext(Absorb(c))
    decreases |c.pending|
  {
    if FirstIsNext(c) {
      RemovalShrinks(c.pending, c.last + 1);
      AbsorbStops(AbsorbOne(c));
    }
  }

  /** After any operations, repeated and stale numbers included, only a stale number keeps the next one pending. */
  lemma {:induction false} AbsorbedUnlessStale(start: int, ops: seq<Op>)
    ensures var c := Run(New(start), ops); NothingStale(c) ==> c.last + 1 !in c.pending
  {
    if ops != [] {
      var before := Run(New(start), ops[..|ops| - 1]);
      AbsorbedUnlessStale(start, ops[..|ops| - 1]);
      match ops[|ops| - 1]
      case Add(e) =>
        if e.sequenceNumber == before.last + 1 {
          AbsorbStops(Advance(before, e.uniqueId));
        } else if !Faults(before, e) {
          assert forall k | k in before.pending :: k in AppendStep(before, e).pending;
        }
      case ClearRun =>
    }
  }

  /** A calculator in any state it can get into goes on to the end of the run for all new numbers to come exactly when
      nothing pending is at or below its position. */
  lemma GoesOnExactlyWithoutStale(start: int, before: seq<Op>)
    ensures var c := Run(New(start), before);
      NothingStale(c) <==> forall ops | NewNumbers(c, ops) :: AtRunEnd(c, ops)
  {
    var c := Run(New(start), before);
    if NothingStale(c) {
      AbsorbedUnlessStale(start, before);
      forall ops | NewNumbers(c, ops)
        ensures AtRunEnd(c, ops)
      {
        ContinuesRun(c, ops);
        RunEndUnique(c.last, c.pending.Keys + Appended(ops).Keys, Run(c, ops).last);
      }
    } else {
      var k :| Stale(c, k);
      var ops := StaleStops(c, k);
      assert NewNumbers(c, ops) && !AtRunEnd(c, ops);
    }
  }

  lemma OneNew(c: Cursor, e: Element)
    requires c.last < e.sequenceNumber && e.sequenceNumber !in c.pending
    ensures NewNumbers(c, [Add(e)]) && Run(c, [Add(e)]) == AppendStep(c, e)
    ensures Appended([Add(e)]) == map[e.sequenceNumber := e.uniqueId]
  {
    assert [Add(e)][..0] == [] && Run(c, []) == c && Appended([]) == map[];
  }

  lemma TwoNew(c: Cursor, e: Element, f: Element)
    requires c.last < e.sequenceNumber && e.sequenceNumber !in c.pending && c.last < f.sequenceNumber
    requires f.sequenceNumber !in c.pending && f.sequenceNumber != e.sequenceNumber
    ensures NewNumbers(c, [Add(e), Add(f)]) && Run(c, [Add(e), Add(f)]) == AppendStep(AppendStep(c, e), f)
    ensures Appended([Add(e), Add(f)]).Keys == {e.sequenceNumber, f.sequenceNumber}
  {
    OneNew(c, e);
    assert [Add(e), Add(f)][..1] == [Add(e)];
  }

  /** Below a stale number the position falls behind: the next two numbers move it by one at most. */
  lemma {:induction false} StaleStops(c: Cursor, k: int) returns (ops: seq<Op>)
    requires Stale(c, k)
    ensures NewNumbers(c, ops) && !AtRunEnd(c, ops)
  {
    var e, f := Element(c.last + 2, "", 0), Element(c.last + 1, "", 0);
    if c.last + 1 in c.pending {
      ops := [];
      assert Run(c, []) == c && Appended([]) == map[];
    } else if c.last + 2 in c.pending {
      ops := [Add(f)];
      OneNew(c, f);
      StaleStays(c, k, Add(f));
    } else {
      ops := [Add(e), Add(f)];
      TwoNew(c, e, f);
      StaleStays(c, k, Add(e));
      StaleStays(AppendStep(c, e), k, Add(f));
    }
  }
}
