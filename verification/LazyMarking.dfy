/** LazyMarkingBrowsableElementStore: the wrapped store's mark moves only after enough of an unbroken run. */
module LazyMarking {
  import opened Common
  import opened Elements
  import opened CursorPosition

  const DEFAULT_THRESHOLD := 1

  /** `marked`: what the wrapped store was told, oldest first. `faulted`: the calculator threw. */
  datatype Marking = Marking(threshold: int, cursor: Cursor, marked: seq<Element>, faulted: bool)

  function Fresh(threshold: int): Marking {
    Marking(threshold, New(0), [], false)
  }

  /** MarkLastProcessedElement: the wrapped store gets the element just appended, not the end of the run. */
  function MarkStep(s: Marking, e: Element): Marking {
    var cursor := AppendStep(s.cursor, e);
    if Faults(s.cursor, e) then s.(cursor := cursor, faulted := true) else Settle(s, cursor, e)
  }

  function Settle(s: Marking, cursor: Cursor, e: Element): Marking {
    if cursor.sequenceLength >= s.threshold then s.(cursor := ClearStep(cursor), marked := s.marked + [e])
    else s.(cursor := cursor)
  }

  function MarkAll(threshold: int, es: seq<Element>): Marking {
    if es == [] then Fresh(threshold)
    else MarkStep(MarkAll(threshold, es[..|es| - 1]), es[|es| - 1])
  }

  // ----- The store as the class it is -----

  /** The wrapped store, as far as the lazy one uses it: it records marks. */
  class WrappedStore {
    var marked: seq<Element>

    constructor ()
      ensures marked == []
    {
      marked := [];
    }

    method MarkLastProcessedElement(e: Element)
      modifies this
      ensures marked == old(marked) + [e]
    {
      marked := marked + [e];
    }
  }

  class LazyMarkingBrowsableElementStore {
    const wrappedStore: WrappedStore
    const cursorCalculator: CursorPositionCalculator
    const threshold: int

    function View(): Marking
      reads this, wrappedStore, cursorCalculator
    {
      Marking(threshold, cursorCalculator.View(), wrappedStore.marked, false)
    }

    constructor (wrappedStore: WrappedStore, threshold: int := DEFAULT_THRESHOLD)
      ensures this.wrappedStore == wrappedStore && fresh(cursorCalculator) && this.threshold == threshold
      ensures View() == Fresh(threshold).(marked := wrappedStore.marked)
    {
      this.wrappedStore := wrappedStore;
      this.threshold := threshold;
      cursorCalculator := new CursorPositionCalculator(0);
    }

    method MarkLastProcessedElement(e: Element) returns (faulted: bool)
      modifies wrappedStore, cursorCalculator
      ensures View().(faulted := faulted) == MarkStep(old(View()), e)
      ensures faulted ==> wrappedStore.marked == old(wrappedStore.marked)
    {
      faulted := cursorCalculator.Append(e);
      if faulted {
        return;
      }
      if cursorCalculator.sequenceLength >= threshold {
        wrappedStore.MarkLastProcessedElement(e);
        cursorCalculator.ClearSequence();
      }
    }
  }

  // ----- What lazy marking promises -----

  function Numbers(es: seq<Element>): map<int, Id> {
    if es == [] then map[]
    else Numbers(es[..|es| - 1])[es[|es| - 1].sequenceNumber := es[|es| - 1].uniqueId]
  }

  /** Numbers from 1 up, no number twice, in any order. */
  ghost predicate NumberedOnce(es: seq<Element>) {
    (forall i | 0 <= i < |es| :: es[i].sequenceNumber >= 1) &&
    (forall i, j | 0 <= i < j < |es| :: es[i].sequenceNumber != es[j].sequenceNumber)
  }

  ghost predicate Has(es: seq<Element>, k: int) {
    exists i :: 0 <= i < |es| && es[i].sequenceNumber == k
  }

  /** Everything numbered up to `n` is among the processed elements. */
  ghost predicate AllProcessedUpTo(es: seq<Element>, n: int) {
    forall k | 1 <= k <= n :: Has(es, k)
  }

  /** Marks only move forward, and never past an element that was not processed. */
  ghost predicate MarksAreSafe(es: seq<Element>, marked: seq<Element>) {
    Ascending(marked) && forall e | e in marked :: e in es && AllProcessedUpTo(es, e.sequenceNumber)
  }

  lemma {:induction false} NumbersOf(es: seq<Element>, k: int)
    ensures k in Numbers(es) <==> Has(es, k)
  {
    if es != [] {
      NumbersOf(es[..|es| - 1], k);
      if Has(es, k) && es[|es| - 1].sequenceNumber != k {
        var i :| 0 <= i < |es| && es[i].sequenceNumber == k;
        assert es[..|es| - 1][i].sequenceNumber == k;
      }
    }
  }

  /** The calculator has seen exactly `es`, and nothing it could still absorb is left. */
  ghost predicate HasSeen(c: Cursor, es: seq<Element>) {
    Tracks(c, 0, Numbers(es)) && c.last + 1 !in Numbers(es)
  }

  /** The state after any arrivals of new numbers. */
  ghost predicate Invariant(s: Marking, es: seq<Element>) {
    && !s.faulted
    && s.cursor.sequenceLength < s.threshold
    && HasSeen(s.cursor, es)
    && Ascending(s.marked)
    && forall e | e in s.marked :: e in es && e.sequenceNumber <= s.cursor.last
  }

  lemma {:induction false} InvariantHolds(threshold: int, es: seq<Element>)
    requires threshold >= 1 && NumberedOnce(es)
    ensures Invariant(MarkAll(threshold, es), es) && MarkAll(threshold, es).threshold == threshold
  {
    if es != [] {
      var before := es[..|es| - 1];
      InvariantHolds(threshold, before);
      InvariantStep(MarkAll(threshold, before), before, es[|es| - 1]);
      assert es == before + [es[|es| - 1]];
    }
  }

  lemma InvariantStep(s: Marking, es: seq<Element>, e: Element)
    requires s.threshold >= 1 && Invariant(s, es) && NumberedOnce(es + [e])
    ensures Invariant(MarkStep(s, e), es + [e])
  {
    NewNumber(es, e);
    assert (es + [e])[..|es|] == es;
    AppendTracks(s.cursor, e, 0, Numbers(es));
    var c := AppendStep(s.cursor, e);
    assert c.last > s.cursor.last ==> e.sequenceNumber == s.cursor.last + 1;
    SettleKeepsInvariant(s, c, es, e);
  }

  /** With a positive threshold a call marks only an element that itself extends the run. */
  lemma SettleKeepsInvariant(s: Marking, c: Cursor, es: seq<Element>, e: Element)
    requires s.threshold >= 1 && Invariant(s, es)
    requires HasSeen(c, es + [e])
    requires c.sequenceLength - s.cursor.sequenceLength == c.last - s.cursor.last
    requires c.last >= s.cursor.last
    requires c.last > s.cursor.last ==> e.sequenceNumber == s.cursor.last + 1
    ensures Invariant(Settle(s, c, e), es + [e])
    ensures Settle(s, c, e).marked != s.marked ==> e.sequenceNumber == s.cursor.last + 1
  {
    if c.sequenceLength >= s.threshold {
      ClearKeepsTracking(c, 0, Numbers(es + [e]));
      MarkedGrows(s.marked, es, e, s.cursor.last);
    }
  }

  lemma MarkedGrows(marked: seq<Element>, es: seq<Element>, e: Element, last: int)
    requires Ascending(marked) && forall x | x in marked :: x in es && x.sequenceNumber <= last
    requires e.sequenceNumber == last + 1
    ensures Ascending(marked + [e])
    ensures forall x | x in marked + [e] :: x in es + [e] && x.sequenceNumber <= last + 1
  {
  }

  lemma NewNumber(es: seq<Element>, e: Element)
    requires NumberedOnce(es + [e])
    ensures 1 <= e.sequenceNumber && e.sequenceNumber !in Numbers(es)
  {
    var es' := es + [e];
    assert es'[|es|] == e && forall i | 0 <= i < |es| :: es'[i] == es[i];
    NumbersOf(es, e.sequenceNumber);
  }

  /** Any arrival order of distinct numbers: marks are safe, no call faults, the run stays below the threshold. */
  lemma LazyMarkingIsSafe(threshold: int, es: seq<Element>)
    requires threshold >= 1 && NumberedOnce(es)
    ensures MarksAreSafe(es, MarkAll(threshold, es).marked)
    ensures !MarkAll(threshold, es).faulted
    ensures MarkAll(threshold, es).cursor.sequenceLength < threshold
  {
    InvariantHolds(threshold, es);
    var s := MarkAll(threshold, es);
    forall e | e in s.marked
      ensures AllProcessedUpTo(es, e.sequenceNumber)
    {
      forall k | 1 <= k <= e.sequenceNumber
        ensures Has(es, k)
      {
        NumbersOf(es, k);
      }
    }
  }

  lemma ClearKeepsTracking(c: Cursor, start: int, m: map<int, Id>)
    requires Tracks(c, start, m)
    ensures Tracks(ClearStep(c), start, m)
  {
  }

  lemma HasSeenStep(s: Marking, es: seq<Element>, e: Element)
    requires HasSeen(s.cursor, es) && NumberedOnce(es + [e])
    ensures !Faults(s.cursor, e)
    ensures HasSeen(MarkStep(s, e).cursor, es + [e])
  {
    NewNumber(es, e);
    assert (es + [e])[..|es|] == es;
    AppendTracks(s.cursor, e, 0, Numbers(es));
    MarkKeepsTracking(s, e, AppendStep(s.cursor, e), Numbers(es + [e]));
  }

  lemma MarkKeepsTracking(s: Marking, e: Element, cursor: Cursor, m: map<int, Id>)
    requires cursor == AppendStep(s.cursor, e) && !Faults(s.cursor, e)
    requires Tracks(cursor, 0, m) && cursor.last + 1 !in m
    ensures Tracks(MarkStep(s, e).cursor, 0, m) && MarkStep(s, e).cursor.last + 1 !in m
  {
    ClearKeepsTracking(cursor, 0, m);
  }

  /** No call faults, whatever the threshold: the calculator's dictionary meets every number once. */
  lemma {:induction false} NewNumbersNeverFault(threshold: int, es: seq<Element>)
    requires NumberedOnce(es)
    ensures !MarkAll(threshold, es).faulted && HasSeen(MarkAll(threshold, es).cursor, es)
  {
    if es != [] {
      var before, e := es[..|es| - 1], es[|es| - 1];
      assert es == before + [e];
      NewNumbersNeverFault(threshold, before);
      HasSeenStep(MarkAll(threshold, before), before, e);
    }
  }

  // ----- When it marks -----

  /** How many elements had arrived when the last mark was made. */
  function MarkedAt(es: seq<Element>, marked: seq<Element>): (n: nat)
    ensures n <= |es|
  {
    if marked == [] || es == [] then 0
    else if es[|es| - 1] == marked[|marked| - 1] then |es|
    else MarkedAt(es[..|es| - 1], marked)
  }

  /** Where the unbroken run of these elements ends. */
  function Reach(es: seq<Element>): int {
    RunEnd(0, Numbers(es).Keys)
  }

  /** The run's length counts from where the run ended at the last mark. */
  ghost predicate CountsSinceMark(s: Marking, es: seq<Element>) {
    s.cursor.sequenceLength == Reach(es) - Reach(es[..MarkedAt(es, s.marked)])
  }

  lemma {:induction false} RunCountsSinceMark(threshold: int, es: seq<Element>)
    requires NumberedOnce(es)
    ensures CountsSinceMark(MarkAll(threshold, es), es)
    ensures forall e | e in MarkAll(threshold, es).marked :: e in es
  {
    if es == [] {
      assert es[..0] == es;
    } else {
      var before, e := es[..|es| - 1], es[|es| - 1];
      assert es == before + [e];
      RunCountsSinceMark(threshold, before);
      MarkCountsSince(MarkAll(threshold, before), before, e, threshold);
    }
  }

  /** What one more element does: it is marked exactly when the run has grown by the threshold. */
  lemma MarkCountsSince(s: Marking, es: seq<Element>, e: Element, threshold: int)
    requires NumberedOnce(es + [e]) && s == MarkAll(threshold, es) && CountsSinceMark(s, es)
    requires forall x | x in s.marked :: x in es
    ensures CountsSinceMark(MarkStep(s, e), es + [e])
    ensures MarkStep(s, e).marked ==
      if Reach(es + [e]) - Reach(es[..MarkedAt(es, s.marked)]) >= threshold then s.marked + [e] else s.marked
  {
    FewerNumberedOnce(es, e);
    NewNumbersNeverFault(threshold, es);
    SameThreshold(threshold, es);
    AppendReaches(s.cursor, es, e);
    MarkedAtMore(es, e, s.marked);
  }

  lemma FewerNumberedOnce(es: seq<Element>, e: Element)
    requires NumberedOnce(es + [e])
    ensures NumberedOnce(es) && e !in es
  {
    assert (es + [e])[|es|] == e && forall i | 0 <= i < |es| :: es[i] == (es + [e])[i];
  }

  lemma {:induction false} SameThreshold(threshold: int, es: seq<Element>)
    ensures MarkAll(threshold, es).threshold == threshold
  {
    if es != [] {
      SameThreshold(threshold, es[..|es| - 1]);
    }
  }

  lemma AppendReaches(c: Cursor, es: seq<Element>, e: Element)
    requires HasSeen(c, es) && NumberedOnce(es + [e])
    ensures !Faults(c, e)
    ensures AppendStep(c, e).sequenceLength - c.sequenceLength == Reach(es + [e]) - Reach(es)
  {
    NewNumber(es, e);
    assert (es + [e])[..|es|] == es;
    AppendTracks(c, e, 0, Numbers(es));
    RunEndUnique(0, Numbers(es).Keys, c.last);
    RunEndUnique(0, Numbers(es + [e]).Keys, AppendStep(c, e).last);
  }

  lemma MarkedAtMore(es: seq<Element>, e: Element, marked: seq<Element>)
    requires e !in es && forall x | x in marked :: x in es
    ensures MarkedAt(es + [e], marked) == MarkedAt(es, marked)
    ensures MarkedAt(es + [e], marked + [e]) == |es| + 1 && (es + [e])[..|es| + 1] == es + [e]
    ensures (es + [e])[..MarkedAt(es, marked)] == es[..MarkedAt(es, marked)]
  {
    assert (es + [e])[..|es|] == es;
  }

  /** For any threshold and arrival order: an element is marked exactly when the unbroken run, with it, has grown by the
      threshold since the last mark. */
  lemma MarksExactlyAtThreshold(threshold: int, es: seq<Element>, e: Element)
    requires NumberedOnce(es + [e])
    ensures var marked := MarkAll(threshold, es).marked;
      MarkAll(threshold, es + [e]).marked ==
        if Reach(es + [e]) - Reach(es[..MarkedAt(es, marked)]) >= threshold then marked + [e] else marked
  {
    FewerNumberedOnce(es, e);
    RunCountsSinceMark(threshold, es);
    MarkCountsSince(MarkAll(threshold, es), es, e, threshold);
    assert (es + [e])[..|es|] == es;
  }

  // ----- What the threshold is for -----

  /** The threshold is what makes it safe: below 1 the very first out-of-order element is marked. */
  lemma SafeExactlyForPositiveThreshold(threshold: int)
    ensures threshold >= 1 <==> forall es | NumberedOnce(es) :: MarksAreSafe(es, MarkAll(threshold, es).marked)
  {
    if threshold >= 1 {
      forall es | NumberedOnce(es)
        ensures MarksAreSafe(es, MarkAll(threshold, es).marked)
      {
        LazyMarkingIsSafe(threshold, es);
      }
    } else {
      var e := Element(2, "b", 0);
      var es := [e];
      assert es[..0] == [] && MarkAll(threshold, es) == MarkStep(Fresh(threshold), e);
      assert e in MarkAll(threshold, es).marked && NumberedOnce(es);
      assert !AllProcessedUpTo(es, 2) by {
        assert !Has(es, 1);
      }
      assert !MarksAreSafe(es, MarkAll(threshold, es).marked);
    }
  }

  function LastMarked(s: Marking): int {
    if s.marked == [] then 0 else s.marked[|s.marked| - 1].sequenceNumber
  }

  ghost predicate KeepsUp(s: Marking) {
    s.cursor.last == LastMarked(s) + s.cursor.sequenceLength
  }

  /** When elements arrive in number order the mark trails the end of the run by the unmarked run length only. */
  lemma {:induction false} InOrderMarksKeepUp(threshold: int, es: seq<Element>)
    requires threshold >= 1 && NumberedOnce(es) && Ascending(es)
    ensures KeepsUp(MarkAll(threshold, es))
  {
    if es != [] {
      var before, e := es[..|es| - 1], es[|es| - 1];
      InOrderMarksKeepUp(threshold, before);
      InvariantHolds(threshold, before);
      assert es == before + [e];
      KeepsUpStep(MarkAll(threshold, before), before, e);
    }
  }

  lemma PositionIsUnbrokenRun(threshold: int, es: seq<Element>)
    requires threshold >= 1 && NumberedOnce(es)
    ensures MarkAll(threshold, es).cursor.last == RunEnd(0, Numbers(es).Keys)
  {
    InvariantHolds(threshold, es);
    RunEndUnique(0, Numbers(es).Keys, MarkAll(threshold, es).cursor.last);
  }

  /** One more element in order makes the unbroken run longer by at most one. */
  lemma RunGrowsByOne(es: seq<Element>, e: Element)
    requires Ascending(es + [e])
    ensures RunEnd(0, Numbers(es + [e]).Keys) <= RunEnd(0, Numbers(es).Keys) + 1
  {
    assert (es + [e])[..|es|] == es;
    var end := RunEnd(0, Numbers(es).Keys);
    if e.sequenceNumber == end + 1 {
      NumbersOf(es, end + 2);
      forall i | 0 <= i < |es|
        ensures es[i].sequenceNumber < end + 1
      {
        assert (es + [e])[i] == es[i] && (es + [e])[|es|] == e;
      }
      assert end + 2 !in Numbers(es + [e]);
    } else {
      assert end + 1 !in Numbers(es + [e]);
    }
  }

  lemma {:induction false} RunGrowsByAll(es: seq<Element>, more: seq<Element>)
    requires Ascending(es + more)
    ensures RunEnd(0, Numbers(es + more).Keys) <= RunEnd(0, Numbers(es).Keys) + |more|
  {
    if more == [] {
      assert es + more == es;
    } else {
      var front, last := more[..|more| - 1], more[|more| - 1];
      assert es + more == (es + front) + [last];
      AscendingFront(es + front, last);
      RunGrowsByAll(es, front);
      RunGrowsByOne(es + front, last);
    }
  }

  lemma AscendingFront(es: seq<Element>, e: Element)
    requires Ascending(es + [e])
    ensures Ascending(es)
  {
    assert forall i | 0 <= i < |es| :: (es + [e])[i] == es[i];
  }

  lemma KeepsUpStep(s: Marking, es: seq<Element>, e: Element)
    requires KeepsUp(s) && Tracks(s.cursor, 0, Numbers(es)) && Ascending(es + [e])
    requires s.cursor.sequenceLength < s.threshold
    ensures KeepsUp(MarkStep(s, e))
  {
    if e.sequenceNumber == s.cursor.last + 1 {
      NothingPending(s.cursor, es, e);
      assert AppendStep(s.cursor, e) == Advance(s.cursor, e.uniqueId);
    }
  }

  lemma NothingPending(c: Cursor, es: seq<Element>, e: Element)
    requires Tracks(c, 0, Numbers(es)) && Ascending(es + [e]) && e.sequenceNumber == c.last + 1
    ensures c.pending == map[]
  {
    var es' := es + [e];
    assert forall i | 0 <= i < |es| :: es'[i] == es[i] && es'[i].sequenceNumber < es'[|es|].sequenceNumber;
    forall k
      ensures k in Numbers(es) ==> k <= c.last
    {
      NumbersOf(es, k);
    }
  }
}
