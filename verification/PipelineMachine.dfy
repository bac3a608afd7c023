/** Pipeline: fetcher, demultiplexer thread, processor thread and post-processor thread joined by three queues,
    as a transition system with one step per hand-off. */
module PipelineMachine {
  import opened Common
  import opened Elements
  import opened Demultiplexing
  import opened KeyOrder
  import opened CursorPosition
  import opened LazyMarking

  /** The closures queued for the demultiplexer thread. */
  datatype Action = ToDemultiplex(element: Element) | ToMarkAsProcessed(element: Element)

  /** The single processor thread: inside IElementProcessor.Process, or between the two queue additions of
      OnEventProcessed. */
  datatype Worker = Idle | Busy(element: Element) | Notifying(element: Element)

  /** The threads' state; `fetched`, `arrived` (how many of those the demultiplexer saw), `finished`, `succeeded`,
      `failed`, `appended` and the lists inside `log` are the history of the run. */
  datatype State = State(
    nextNumber: int,
    fetched: seq<Element>,
    arrived: nat,
    actions: seq<Action>,
    log: Log,
    demultiplexerFaulted: bool,
    toProcess: seq<Element>,
    worker: Worker,
    finished: seq<Element>,
    succeeded: seq<Element>,
    failed: seq<Element>,
    toMark: seq<Element>,
    appended: seq<Element>,
    store: Marking)

  function Init(threshold: int): State {
    State(1, [], 0, [], Start(), false, [], Idle, [], [], [], [], [], Fresh(threshold))
  }

  datatype Step =
    | Fetch(id: Id, key: Key)  // one element of a fetched batch, numbered under the fetch lock
    | RunAction                // demultiplexer thread: the oldest closure
    | Take                     // processor thread: the oldest element
    | Succeed                  // Process returned: MarkAsProcessed is queued
    | Fail                     // Process threw: the element is dropped
    | HandOver                 // the element goes to the post-processing queue
    | Mark                     // post-processor thread: the oldest element

  /** A step whose thread has nothing to do, or has died, changes nothing. */
  function Next(s: State, step: Step): State {
    match step
    case Fetch(id, key) => FetchStep(s, Element(s.nextNumber, id, key))
    case RunAction =>
      if s.actions == [] || s.demultiplexerFaulted then s
      else
        var rest := s.(actions := s.actions[1..]);
        (match s.actions[0]
         case ToDemultiplex(e) => DemultiplexerStep(rest, e)
         case ToMarkAsProcessed(e) => ProcessedStep(rest, e))
    case Take =>
      if s.worker.Idle? && s.toProcess != [] then
        s.(worker := Busy(s.toProcess[0]), toProcess := s.toProcess[1..])
      else s
    case Succeed => if s.worker.Busy? then SucceedStep(s, s.worker.element) else s
    case Fail => if s.worker.Busy? then FailStep(s, s.worker.element) else s
    case HandOver =>
      if s.worker.Notifying? then s.(worker := Idle, toMark := s.toMark + [s.worker.element]) else s
    case Mark =>
      if s.toMark != [] && !s.store.faulted then MarkingStep(s.(toMark := s.toMark[1..]), s.toMark[0]) else s
  }

  function FetchStep(s: State, e: Element): State {
    s.(nextNumber := s.nextNumber + 1, fetched := s.fetched + [e], actions := s.actions + [ToDemultiplex(e)])
  }

  function DemultiplexerStep(s: State, e: Element): State {
    s.(arrived := s.arrived + 1,
       log := Arrive(s.log, e),
       toProcess := match Emits(s.log.demux, e) case Some(_) => s.toProcess + [e] case None => s.toProcess)
  }

  function ProcessedStep(s: State, e: Element): State {
    if MarkAsProcessedStep(s.log.demux, e).Some? then s.(log := Finish(s.log, e))
    else s.(demultiplexerFaulted := true)
  }

  function SucceedStep(s: State, e: Element): State {
    s.(worker := Notifying(e), finished := s.finished + [e], succeeded := s.succeeded + [e],
       actions := s.actions + [ToMarkAsProcessed(e)])
  }

  function FailStep(s: State, e: Element): State {
    s.(worker := Idle, finished := s.finished + [e], failed := s.failed + [e])
  }

  function MarkingStep(s: State, e: Element): State {
    s.(appended := s.appended + [e], store := MarkStep(s.store, e))
  }

  /** Every interleaving is some sequence of steps. */
  function Run(s: State, steps: seq<Step>): State {
    if steps == [] then s else Next(Run(s, steps[..|steps| - 1]), steps[|steps| - 1])
  }

  // ----- The invariant -----

  function Arrivals(actions: seq<Action>): seq<Element> {
    if actions == [] then []
    else (if actions[0].ToDemultiplex? then [actions[0].element] else []) + Arrivals(actions[1..])
  }

  function Completions(actions: seq<Action>): seq<Element> {
    if actions == [] then []
    else (if actions[0].ToMarkAsProcessed? then [actions[0].element] else []) + Completions(actions[1..])
  }

  lemma {:induction false} ActionQueued(actions: seq<Action>, action: Action)
    ensures Arrivals(actions + [action]) ==
            Arrivals(actions) + if action.ToDemultiplex? then [action.element] else []
    ensures Completions(actions + [action]) ==
            Completions(actions) + if action.ToMarkAsProcessed? then [action.element] else []
  {
    var longer := actions + [action];
    if actions == [] {
      assert longer == [action] && longer[1..] == [];
    } else {
      assert longer[0] == actions[0] && longer[1..] == actions[1..] + [action];
      ActionQueued(actions[1..], action);
    }
  }

  function BusyWith(w: Worker): seq<Element> {
    if w.Busy? then [w.element] else []
  }

  function NotifyingOf(w: Worker): seq<Element> {
    if w.Notifying? then [w.element] else []
  }

  /** Fetched elements are numbered 1, 2, ... */
  ghost predicate NumberedFromOne(s: State) {
    && s.nextNumber == |s.fetched| + 1
    && forall i | 0 <= i < |s.fetched| :: s.fetched[i].sequenceNumber == i + 1
  }

  ghost predicate UpTo(es: seq<Element>, n: int) {
    forall e | e in es :: e.sequenceNumber <= n
  }

  /** Elements reach the demultiplexer in fetch order. */
  ghost predicate ArrivesInOrder(s: State) {
    && s.arrived <= |s.fetched| && Arrivals(s.actions) == s.fetched[s.arrived..]
    && Ascending(s.log.accepted) && UpTo(s.log.accepted, s.arrived)
    && forall e | e in s.log.accepted :: e in s.fetched
  }

  /** Every emitted element is finished, or ahead: being processed or queued. */
  ghost predicate ProcessesInOrder(s: State) {
    Ascending(s.log.emitted) && UpTo(s.log.emitted, s.arrived) && s.log.emitted == s.finished + Ahead(s)
  }

  /** Finished elements either succeeded or failed. */
  ghost predicate OutcomesAreExact(finished: seq<Element>, succeeded: seq<Element>, failed: seq<Element>) {
    && Ascending(succeeded)
    && (forall e :: e in finished <==> e in succeeded || e in failed)
    && (forall e | e in succeeded :: e !in failed)
  }

  function Ahead(s: State): seq<Element> {
    BusyWith(s.worker) + s.toProcess
  }

  /** Not yet handed to the store. */
  function Unmarked(s: State): seq<Element> {
    s.toMark + NotifyingOf(s.worker)
  }

  ghost predicate QueuesAreExact(s: State) {
    && NumberedFromOne(s)
    && ArrivesInOrder(s)
    && ProcessesInOrder(s)
    && OutcomesAreExact(s.finished, s.succeeded, s.failed)
    && s.succeeded == s.log.done + Completions(s.actions)
    && s.succeeded == s.appended + Unmarked(s)
  }

  ghost predicate Invariant(s: State, threshold: int) {
    && QueuesAreExact(s)
    && Orderly(s.log) && !s.demultiplexerFaulted
    && s.store == MarkAll(threshold, s.appended)
  }

  // ----- Moving an element from one list to the next -----

  lemma MoveFirst(es: seq<Element>, e: Element, rest: seq<Element>)
    ensures es + ([e] + rest) == (es + [e]) + rest
  {
  }

  lemma FirstIsNew(all: seq<Element>, es: seq<Element>, e: Element, rest: seq<Element>)
    requires Ascending(all) && all == es + ([e] + rest)
    ensures e !in es && forall x | x in es :: x.sequenceNumber < e.sequenceNumber
  {
    assert all[|es|] == e && forall i | 0 <= i < |es| :: all[i] == es[i];
  }

  lemma Extend(es: seq<Element>, e: Element)
    requires Ascending(es) && forall x | x in es :: x.sequenceNumber < e.sequenceNumber
    ensures Ascending(es + [e])
  {
  }

  lemma OutcomeAdded(finished: seq<Element>, succeeded: seq<Element>, failed: seq<Element>, e: Element)
    requires OutcomesAreExact(finished, succeeded, failed) && e !in finished
    requires forall x | x in finished :: x.sequenceNumber < e.sequenceNumber
    ensures OutcomesAreExact(finished + [e], succeeded + [e], failed)
    ensures OutcomesAreExact(finished + [e], succeeded, failed + [e])
  {
    Extend(succeeded, e);
  }

  // ----- Every step keeps the invariant -----

  lemma InitInvariant(threshold: int)
    ensures Invariant(Init(threshold), threshold)
  {
    StartOrderly();
    InitQueues(threshold);
    assert MarkAll(threshold, []) == Fresh(threshold);
  }

  lemma InitQueues(threshold: int)
    ensures QueuesAreExact(Init(threshold))
  {
    var s := Init(threshold);
    assert OutcomesAreExact(s.finished, s.succeeded, s.failed);
    assert ArrivesInOrder(s) && ProcessesInOrder(s);
  }

  lemma FetchInvariant(s: State, threshold: int, e: Element)
    requires Invariant(s, threshold) && e.sequenceNumber == s.nextNumber
    ensures Invariant(FetchStep(s, e), threshold)
  {
    FetchQueues(s, e);
  }

  lemma FetchQueues(s: State, e: Element)
    requires QueuesAreExact(s) && e.sequenceNumber == s.nextNumber
    ensures QueuesAreExact(FetchStep(s, e))
  {
    ActionQueued(s.actions, ToDemultiplex(e));
    assert (s.fetched + [e])[s.arrived..] == s.fetched[s.arrived..] + [e];
    assert Ahead(FetchStep(s, e)) == Ahead(s) && Unmarked(FetchStep(s, e)) == Unmarked(s);
  }

  lemma DemultiplexerInvariant(s: State, threshold: int, e: Element)
    requires Invariant(s, threshold) && s.actions != [] && s.actions[0] == ToDemultiplex(e)
    ensures Invariant(DemultiplexerStep(s.(actions := s.actions[1..]), e), threshold)
  {
    NextArrival(s, e);
    DemultiplexerQueues(s, e);
    ArriveOrderly(s.log, e);
  }

  lemma NextArrival(s: State, e: Element)
    requires NumberedFromOne(s) && ArrivesInOrder(s) && s.actions != [] && s.actions[0] == ToDemultiplex(e)
    ensures e.sequenceNumber == s.arrived + 1 && e !in s.log.accepted && s.arrived < |s.fetched|
    ensures e == s.fetched[s.arrived] && Arrivals(s.actions[1..]) == s.fetched[s.arrived + 1..]
  {
    assert Arrivals(s.actions) == [e] + Arrivals(s.actions[1..]);
    assert s.fetched[s.arrived..][0] == e && s.fetched[s.arrived..][1..] == s.fetched[s.arrived + 1..];
  }

  lemma DemultiplexerQueues(s: State, e: Element)
    requires QueuesAreExact(s) && s.actions != [] && s.actions[0] == ToDemultiplex(e)
    ensures QueuesAreExact(DemultiplexerStep(s.(actions := s.actions[1..]), e))
  {
    NextArrival(s, e);
    var s' := DemultiplexerStep(s.(actions := s.actions[1..]), e);
    DemultiplexerArrives(s, s', e);
    DemultiplexerEmits(s, s', e);
    assert Completions(s'.actions) == Completions(s.actions) && Unmarked(s') == Unmarked(s);
  }

  lemma DemultiplexerArrives(s: State, s': State, e: Element)
    requires ArrivesInOrder(s) && s.arrived < |s.fetched| && e == s.fetched[s.arrived]
    requires e.sequenceNumber == s.arrived + 1
    requires s'.arrived == s.arrived + 1 && s'.fetched == s.fetched
    requires s'.log.accepted == s.log.accepted || s'.log.accepted == s.log.accepted + [e]
    requires Arrivals(s'.actions) == s.fetched[s'.arrived..]
    ensures ArrivesInOrder(s')
  {
    Extend(s.log.accepted, e);
    assert forall x | x in s'.log.accepted :: x in s.log.accepted || x == e;
  }

  lemma DemultiplexerEmits(s: State, s': State, e: Element)
    requires ProcessesInOrder(s) && e.sequenceNumber == s.arrived + 1
    requires s'.arrived == s.arrived + 1 && s'.finished == s.finished && s'.worker == s.worker
    requires || (s'.log.emitted == s.log.emitted && s'.toProcess == s.toProcess)
             || (s'.log.emitted == s.log.emitted + [e] && s'.toProcess == s.toProcess + [e])
    ensures ProcessesInOrder(s')
  {
    Extend(s.log.emitted, e);
    assert Ahead(s) + [e] == BusyWith(s.worker) + (s.toProcess + [e]);
    assert (s.finished + Ahead(s)) + [e] == s.finished + (Ahead(s) + [e]);
  }

  lemma ProcessedInvariant(s: State, threshold: int, e: Element)
    requires Invariant(s, threshold) && s.actions != [] && s.actions[0] == ToMarkAsProcessed(e)
    ensures Invariant(ProcessedStep(s.(actions := s.actions[1..]), e), threshold)
  {
    NextCompletion(s, e);
    FinishOrderly(s.log, e);
    ProcessedQueues(s, e);
  }

  lemma NextCompletion(s: State, e: Element)
    requires QueuesAreExact(s) && s.actions != [] && s.actions[0] == ToMarkAsProcessed(e)
    ensures e in s.log.emitted && e !in s.log.done
  {
    FirstIsNew(s.succeeded, s.log.done, e, Completions(s.actions[1..]));
    assert e in s.succeeded;
  }

  lemma ProcessedQueues(s: State, e: Element)
    requires QueuesAreExact(s) && s.actions != [] && s.actions[0] == ToMarkAsProcessed(e)
    requires MarkAsProcessedStep(s.log.demux, e).Some?
    ensures QueuesAreExact(ProcessedStep(s.(actions := s.actions[1..]), e))
  {
    MoveFirst(s.log.done, e, Completions(s.actions[1..]));
    var s' := ProcessedStep(s.(actions := s.actions[1..]), e);
    assert Ahead(s') == Ahead(s) && Unmarked(s') == Unmarked(s);
  }

  lemma TakeInvariant(s: State, threshold: int)
    requires Invariant(s, threshold) && s.worker.Idle? && s.toProcess != []
    ensures Invariant(Next(s, Take), threshold)
  {
    var s' := Next(s, Take);
    assert Ahead(s) == Ahead(s') && Unmarked(s) == Unmarked(s');
    assert QueuesAreExact(s');
  }

  lemma FinishInvariant(s: State, threshold: int, e: Element)
    requires Invariant(s, threshold) && s.worker == Busy(e)
    ensures Invariant(SucceedStep(s, e), threshold) && Invariant(FailStep(s, e), threshold)
  {
    FirstIsNew(s.log.emitted, s.finished, e, s.toProcess);
    MoveFirst(s.finished, e, s.toProcess);
    OutcomeAdded(s.finished, s.succeeded, s.failed, e);
    ActionQueued(s.actions, ToMarkAsProcessed(e));
    FinishRouting(s, e);
  }

  lemma FinishRouting(s: State, e: Element)
    requires s.worker == Busy(e)
    requires s.succeeded == s.log.done + Completions(s.actions) == s.appended + Unmarked(s)
    ensures s.succeeded + [e] == s.log.done + (Completions(s.actions) + [e])
    ensures s.succeeded + [e] == s.appended + Unmarked(SucceedStep(s, e))
    ensures Unmarked(FailStep(s, e)) == Unmarked(s)
    ensures Ahead(SucceedStep(s, e)) == s.toProcess == Ahead(FailStep(s, e))
    ensures Arrivals(s.actions) + [] == Arrivals(s.actions)
  {
  }

  lemma HandOverInvariant(s: State, threshold: int)
    requires Invariant(s, threshold) && s.worker.Notifying?
    ensures Invariant(Next(s, HandOver), threshold)
  {
    assert Unmarked(s) == Unmarked(Next(s, HandOver));
  }

  lemma MarkInvariant(s: State, threshold: int, e: Element)
    requires Invariant(s, threshold) && s.toMark != [] && s.toMark[0] == e
    ensures Invariant(MarkingStep(s.(toMark := s.toMark[1..]), e), threshold)
  {
    MarkQueues(s, e);
    MarkAllOneMore(threshold, s.appended, e);
  }

  lemma MarkQueues(s: State, e: Element)
    requires QueuesAreExact(s) && s.toMark != [] && s.toMark[0] == e
    ensures QueuesAreExact(MarkingStep(s.(toMark := s.toMark[1..]), e))
  {
    var s' := MarkingStep(s.(toMark := s.toMark[1..]), e);
    assert Unmarked(s) == [e] + Unmarked(s');
    MoveFirst(s.appended, e, Unmarked(s'));
    assert Ahead(s') == Ahead(s);
  }

  lemma MarkAllOneMore(threshold: int, es: seq<Element>, e: Element)
    ensures MarkAll(threshold, es + [e]) == MarkStep(MarkAll(threshold, es), e)
  {
    assert (es + [e])[..|es|] == es;
  }

  lemma NextInvariant(s: State, threshold: int, step: Step)
    requires Invariant(s, threshold)
    ensures Invariant(Next(s, step), threshold)
  {
    match step
    case Fetch(id, key) => FetchInvariant(s, threshold, Element(s.nextNumber, id, key));
    case RunAction =>
      if s.actions != [] {
        match s.actions[0]
        case ToDemultiplex(e) => DemultiplexerInvariant(s, threshold, e);
        case ToMarkAsProcessed(e) => ProcessedInvariant(s, threshold, e);
      }
    case Take => if s.worker.Idle? && s.toProcess != [] { TakeInvariant(s, threshold); }
    case Succeed => if s.worker.Busy? { FinishInvariant(s, threshold, s.worker.element); }
    case Fail => if s.worker.Busy? { FinishInvariant(s, threshold, s.worker.element); }
    case HandOver => if s.worker.Notifying? { HandOverInvariant(s, threshold); }
    case Mark => if s.toMark != [] && !s.store.faulted { MarkInvariant(s, threshold, s.toMark[0]); }
  }

  lemma {:induction false} RunInvariant(threshold: int, steps: seq<Step>)
    ensures Invariant(Run(Init(threshold), steps), threshold)
  {
    if steps == [] {
      InitInvariant(threshold);
    } else {
      RunInvariant(threshold, steps[..|steps| - 1]);
      NextInvariant(Run(Init(threshold), steps[..|steps| - 1]), threshold, steps[|steps| - 1]);
    }
  }

  // ----- What every run guarantees -----

  lemma AppendedNumberedOnce(s: State)
    requires QueuesAreExact(s) && forall e | e in s.log.emitted :: e in s.log.accepted
    ensures NumberedOnce(s.appended) && Ascending(s.appended)
    ensures forall e | e in s.appended :: e in s.succeeded && e in s.fetched
  {
    forall i | 0 <= i < |s.appended|
      ensures s.appended[i] == s.succeeded[i] && s.appended[i] in s.fetched
    {
      SucceededIsFetched(s, s.succeeded[i]);
    }
  }

  lemma SucceededIsFetched(s: State, e: Element)
    requires QueuesAreExact(s) && e in s.succeeded && forall e | e in s.log.emitted :: e in s.log.accepted
    ensures e in s.fetched
  {
    assert e in s.finished && e in s.log.emitted;
  }

  /** A mark at `m` means everything fetched up to `m` was processed without an exception. */
  ghost predicate MarksOnlyProcessed(s: State) {
    forall m, e | m in s.store.marked && e in s.fetched && e.sequenceNumber <= m.sequenceNumber ::
      e in s.succeeded && e !in s.failed
  }

  lemma MarkedMeansProcessed(threshold: int, steps: seq<Step>)
    requires threshold >= 1
    ensures MarksOnlyProcessed(Run(Init(threshold), steps))
  {
    RunInvariant(threshold, steps);
    var s := Run(Init(threshold), steps);
    AppendedNumberedOnce(s);
    LazyMarkingIsSafe(threshold, s.appended);
    forall m, e | m in s.store.marked && e in s.fetched && e.sequenceNumber <= m.sequenceNumber
      ensures e in s.succeeded
    {
      assert Has(s.appended, e.sequenceNumber);
      var i :| 0 <= i < |s.appended| && s.appended[i].sequenceNumber == e.sequenceNumber;
      SameNumberSameElement(s, s.appended[i], e);
    }
  }

  lemma SameNumberSameElement(s: State, e: Element, f: Element)
    requires NumberedFromOne(s) && e in s.fetched && f in s.fetched && e.sequenceNumber == f.sequenceNumber
    ensures e == f
  {
  }

  /** The threshold is what makes it so: below 1 the store marks the second element although the first failed. */
  lemma MarksSafeExactlyForPositiveThreshold(threshold: int)
    ensures threshold >= 1 <==> forall steps :: MarksOnlyProcessed(Run(Init(threshold), steps))
  {
    if threshold >= 1 {
      forall steps: seq<Step>
        ensures MarksOnlyProcessed(Run(Init(threshold), steps))
      {
        MarkedMeansProcessed(threshold, steps);
      }
    } else {
      var steps := UnsafeRun(threshold);
      assert !MarksOnlyProcessed(Run(Init(threshold), steps));
    }
  }

  lemma RunMore(s: State, steps: seq<Step>, step: Step)
    ensures Run(s, steps + [step]) == Next(Run(s, steps), step)
  {
    assert (steps + [step])[..|steps|] == steps;
  }

  lemma {:induction false} UnsafeRun(threshold: int) returns (steps: seq<Step>)
    requires threshold < 1
    ensures !MarksOnlyProcessed(Run(Init(threshold), steps))
  {
    var a, b := Element(1, "a", 1), Element(2, "b", 2);
    var s;
    steps, s := [], Init(threshold);
    steps, s := TwoMore(threshold, steps, s, Fetch("a", 1), Fetch("b", 2));
    UnsafeFetches(threshold, a, b);
    steps, s := TwoMore(threshold, steps, s, RunAction, RunAction);
    UnsafeArrivals(threshold, a, b);
    steps, s := TwoMore(threshold, steps, s, Take, Fail);
    steps, s := TwoMore(threshold, steps, s, Take, Succeed);
    steps, s := TwoMore(threshold, steps, s, HandOver, Mark);
    UnsafeMark(AfterArrivals(threshold, a, b), a, b);
  }

  function AfterFetches(threshold: int, a: Element, b: Element): State {
    Init(threshold).(nextNumber := 3, fetched := [a, b], actions := [ToDemultiplex(a), ToDemultiplex(b)])
  }

  lemma UnsafeFetches(threshold: int, a: Element, b: Element)
    requires a == Element(1, "a", 1) && b == Element(2, "b", 2)
    ensures Next(Next(Init(threshold), Fetch("a", 1)), Fetch("b", 2)) == AfterFetches(threshold, a, b)
  {
  }

  function AfterArrivals(threshold: int, a: Element, b: Element): State {
    var s := AfterFetches(threshold, a, b);
    s.(arrived := 2, actions := [], log := Arrive(Arrive(s.log, a), b), toProcess := [a, b])
  }

  lemma UnsafeArrivals(threshold: int, a: Element, b: Element)
    requires a == Element(1, "a", 1) && b == Element(2, "b", 2)
    ensures Next(Next(AfterFetches(threshold, a, b), RunAction), RunAction) == AfterArrivals(threshold, a, b)
  {
    assert AfterFetches(threshold, a, b).actions[1..] == [ToDemultiplex(b)];
    assert Arrive(Start(), a).demux.waiting.Keys == {1};
  }

  lemma UnsafeMark(s: State, a: Element, b: Element)
    requires s.toProcess == [a, b] && s.worker == Idle && s.toMark == [] && s.store.cursor.sequenceLength == 0
    requires s.store.threshold < 1 && !s.store.faulted && s.store.cursor.last == 0 && s.store.cursor.pending == map[]
    requires a in s.fetched && a.sequenceNumber == 1 && b.sequenceNumber == 2
    ensures var s' := Next(Next(Next(Next(Next(Next(s, Take), Fail), Take), Succeed), HandOver), Mark);
      !MarksOnlyProcessed(s')
  {
    var failed := Next(Next(s, Take), Fail);
    assert failed.toProcess == [b] && a in failed.failed && a in failed.fetched;
    var notified := Next(Next(failed, Take), Succeed);
    assert notified.worker == Notifying(b) && notified.toMark == [] && a in notified.failed;
    var marked := Next(Next(notified, HandOver), Mark);
    assert b in marked.store.marked && a in marked.failed;
  }

  lemma {:induction false} TwoMore(threshold: int, steps: seq<Step>, s: State, one: Step, two: Step)
    returns (steps': seq<Step>, s': State)
    requires s == Run(Init(threshold), steps)
    ensures steps' == steps + [one] + [two] && s' == Next(Next(s, one), two) == Run(Init(threshold), steps')
  {
    steps', s' := OneMore(threshold, steps, s, one);
    steps', s' := OneMore(threshold, steps', s', two);
  }

  lemma {:induction false} OneMore(threshold: int, steps: seq<Step>, s: State, step: Step)
    returns (steps': seq<Step>, s': State)
    requires s == Run(Init(threshold), steps)
    ensures steps' == steps + [step] && s' == Next(s, step) == Run(Init(threshold), steps')
  {
    steps', s' := steps + [step], Next(s, step);
    RunMore(Init(threshold), steps, step);
  }

  /** For every key: done, then at most one in flight, then waiting, is exactly what was accepted, in order. */
  lemma KeysStayInOrder(threshold: int, steps: seq<Step>, key: Key)
    ensures var l := Run(Init(threshold), steps).log;
      exists inFlight: seq<Element> :: |inFlight| <= 1
        && OfKey(l.emitted, key) == OfKey(l.done, key) + inFlight
        && OfKey(l.accepted, key) == OfKey(l.done, key) + inFlight + Waiting(l.demux, key)
  {
    RunInvariant(threshold, steps);
    var l := Run(Init(threshold), steps).log;
    assert KeyInOrder(l, key);
    var inFlight := OfKey(l.emitted, key)[|OfKey(l.done, key)|..];
    assert OfKey(l.emitted, key) == OfKey(l.done, key) + inFlight;
  }

  /** Elements of one key are never in flight together. */
  lemma OneInFlightPerKey(threshold: int, steps: seq<Step>, e: Element, f: Element)
    ensures var s := Run(Init(threshold), steps);
      (e in s.log.emitted && e !in s.log.done && f in s.log.emitted && f !in s.log.done &&
       e.groupingKey == f.groupingKey) ==> e == f
  {
    RunInvariant(threshold, steps);
    var s := Run(Init(threshold), steps);
    assert KeyInOrder(s.log, e.groupingKey);
    if e in s.log.emitted && e !in s.log.done && f in s.log.emitted && f !in s.log.done &&
       e.groupingKey == f.groupingKey {
      EmittedIsInFlight(s.log, e);
      EmittedIsInFlight(s.log, f);
      var done := OfKey(s.log.done, e.groupingKey);
      assert (done + [e])[|done|] == (done + [f])[|done|];
    }
  }

  /** After a failure nothing later of the same key is processed, or even queued for processing. */
  lemma FailureStopsItsKey(threshold: int, steps: seq<Step>, failed: Element, later: Element)
    ensures var s := Run(Init(threshold), steps);
      (failed in s.failed && later in s.log.accepted && later.groupingKey == failed.groupingKey &&
       failed.sequenceNumber < later.sequenceNumber) ==>
        later in Waiting(s.log.demux, failed.groupingKey) && later !in s.log.emitted
  {
    RunInvariant(threshold, steps);
    var s := Run(Init(threshold), steps);
    var key := failed.groupingKey;
    if failed in s.failed && later in s.log.accepted && later.groupingKey == key &&
       failed.sequenceNumber < later.sequenceNumber {
      assert failed in s.finished && failed in s.log.emitted && failed !in s.log.done;
      assert KeyInOrder(s.log, key);
      EmittedIsInFlight(s.log, failed);
      LastIsLargest(s.log.emitted, OfKey(s.log.done, key), failed, later, key);
      OfKeyMember(s.log.accepted, key, later);
      OfKeyMember(s.log.emitted, key, later);
    }
  }

  lemma LastIsLargest(emitted: seq<Element>, done: seq<Element>, last: Element, later: Element, key: Key)
    requires Ascending(emitted) && OfKey(emitted, key) == done + [last] && last.sequenceNumber < later.sequenceNumber
    ensures later !in OfKey(emitted, key)
  {
    OfKeyAscending(emitted, key);
    var es := OfKey(emitted, key);
    assert es[|done|] == last;
  }

  lemma {:induction false} OfKeyAscending(es: seq<Element>, key: Key)
    requires Ascending(es)
    ensures Ascending(OfKey(es, key))
  {
    if es != [] {
      var front, last := es[..|es| - 1], es[|es| - 1];
      OfKeyAscending(front, key);
      forall e | e in OfKey(front, key)
        ensures e.sequenceNumber < last.sequenceNumber
      {
        OfKeyMember(front, key, e);
      }
    }
  }

  // ----- What reaches processing -----

  /** In every run: what arrives next is dropped exactly when an outstanding element has its id, and otherwise queued
      for processing at once exactly when none has its key. */
  lemma ArrivalInRun(threshold: int, steps: seq<Step>, e: Element)
    ensures var s := Run(Init(threshold), steps);
      s.actions != [] && s.actions[0] == ToDemultiplex(e) ==>
        var s' := Next(s, RunAction);
        var dropped := exists f :: Outstanding(s.log, f) && f.uniqueId == e.uniqueId;
        var held := exists f :: Outstanding(s.log, f) && f.groupingKey == e.groupingKey;
        && e.sequenceNumber == s.arrived + 1 == s'.arrived
        && s'.log.accepted == (if dropped then s.log.accepted else s.log.accepted + [e])
        && s'.toProcess == if dropped || held then s.toProcess else s.toProcess + [e]
  {
    RunInvariant(threshold, steps);
    var s := Run(Init(threshold), steps);
    if s.actions != [] && s.actions[0] == ToDemultiplex(e) {
      NextArrival(s, e);
      ArrivalQueues(s.(actions := s.actions[1..]), e);
    }
  }

  lemma ArrivalQueues(s: State, e: Element)
    requires Orderly(s.log) && e !in s.log.accepted
    ensures var s' := DemultiplexerStep(s, e);
      var dropped := exists f :: Outstanding(s.log, f) && f.uniqueId == e.uniqueId;
      var held := exists f :: Outstanding(s.log, f) && f.groupingKey == e.groupingKey;
      && s'.log.accepted == (if dropped then s.log.accepted else s.log.accepted + [e])
      && s'.toProcess == if dropped || held then s.toProcess else s.toProcess + [e]
  {
    DropsExactlyOutstandingIds(s.log, e);
    if Arrive(s.log, e).accepted != s.log.accepted {
      BlockedExactlyWhileOutstanding(s.log, e.groupingKey);
    }
  }

  /** An earlier one of these elements has the same id. */
  ghost predicate SharesIdWithEarlier(accepted: seq<Element>, e: Element) {
    exists f :: f in accepted && f.uniqueId == e.uniqueId && f.sequenceNumber < e.sequenceNumber
  }

  /** In every run each element that arrived was accepted, unless an earlier accepted one has its id. */
  lemma {:induction false} DroppedSharesId(threshold: int, steps: seq<Step>, i: nat)
    ensures var s := Run(Init(threshold), steps);
      && s.arrived <= |s.fetched|
      && (i < s.arrived ==> s.fetched[i] in s.log.accepted || SharesIdWithEarlier(s.log.accepted, s.fetched[i]))
  {
    RunInvariant(threshold, steps);
    if steps != [] {
      DroppedSharesId(threshold, steps[..|steps| - 1], i);
      RunInvariant(threshold, steps[..|steps| - 1]);
      DroppedStaysShared(Run(Init(threshold), steps[..|steps| - 1]), steps[|steps| - 1], i);
    }
  }

  lemma DroppedStaysShared(s: State, step: Step, i: nat)
    requires QueuesAreExact(s) && Orderly(s.log)
    requires i < s.arrived ==> s.fetched[i] in s.log.accepted || SharesIdWithEarlier(s.log.accepted, s.fetched[i])
    ensures var s' := Next(s, step);
      i < s'.arrived <= |s'.fetched| ==>
        s'.fetched[i] in s'.log.accepted || SharesIdWithEarlier(s'.log.accepted, s'.fetched[i])
  {
    if step.RunAction? && s.actions != [] && s.actions[0].ToDemultiplex? {
      var e := s.actions[0].element;
      NextArrival(s, e);
      DropsExactlyOutstandingIds(s.log, e);
      if i <= s.arrived {
        SharedMore(s.log.accepted, Arrive(s.log, e).accepted, s.fetched[i]);
      }
    }
  }

  lemma SharedMore(accepted: seq<Element>, longer: seq<Element>, e: Element)
    requires accepted <= longer
    ensures SharesIdWithEarlier(accepted, e) ==> SharesIdWithEarlier(longer, e)
    ensures e in accepted ==> e in longer
  {
    assert forall f | f in accepted :: f in longer;
  }

  /** Neither dictionary ever throws, whatever ids and keys the store returns. */
  lemma NothingFaults(threshold: int, steps: seq<Step>)
    ensures var s := Run(Init(threshold), steps); !s.demultiplexerFaulted && !s.store.faulted
  {
    RunInvariant(threshold, steps);
    var s := Run(Init(threshold), steps);
    AppendedNumberedOnce(s);
    NewNumbersNeverFault(threshold, s.appended);
  }

  /** The store's mark trails the end of the unbroken processed run by less than the threshold, and by what was
      processed but is not yet handed to the store. */
  lemma MarksKeepUp(threshold: int, steps: seq<Step>)
    requires threshold >= 1
    ensures var s := Run(Init(threshold), steps);
      && RunEnd(0, Numbers(s.appended).Keys) < LastMarked(s.store) + threshold
      && RunEnd(0, Numbers(s.succeeded).Keys) < LastMarked(s.store) + threshold + |Unmarked(s)|
  {
    RunInvariant(threshold, steps);
    var s := Run(Init(threshold), steps);
    AppendedNumberedOnce(s);
    InOrderMarksKeepUp(threshold, s.appended);
    PositionIsUnbrokenRun(threshold, s.appended);
    LazyMarkingIsSafe(threshold, s.appended);
    RunGrowsByAll(s.appended, Unmarked(s));
  }

  /** What waits behind another element of its key is never processed: nothing takes it from the queue. */
  lemma {:induction false} WaitingIsForever(s: State, steps: seq<Step>, key: Key)
    requires Waiting(s.log.demux, key) != []
    ensures Waiting(s.log.demux, key) <= Waiting(Run(s, steps).log.demux, key)
    ensures OfKey(Run(s, steps).log.emitted, key) == OfKey(s.log.emitted, key)
  {
    if steps != [] {
      WaitingIsForever(s, steps[..|steps| - 1], key);
      WaitingKept(Run(s, steps[..|steps| - 1]), steps[|steps| - 1], key);
    }
  }

  lemma WaitingKept(s: State, step: Step, key: Key)
    requires Waiting(s.log.demux, key) != []
    ensures Waiting(s.log.demux, key) <= Waiting(Next(s, step).log.demux, key)
    ensures OfKey(Next(s, step).log.emitted, key) == OfKey(s.log.emitted, key)
  {
    if step.RunAction? && s.actions != [] {
      WaitingKeyStaysBlocked(s.log, s.actions[0].element, key);
    }
  }

  // ----- Elements that are never processed -----

  lemma {:induction false} RunConcat(s: State, steps: seq<Step>, more: seq<Step>)
    ensures Run(s, steps + more) == Run(Run(s, steps), more)
  {
    if more == [] {
      assert steps + more == steps;
    } else {
      assert (steps + more)[..|steps + more| - 1] == steps + more[..|more| - 1];
      RunConcat(s, steps, more[..|more| - 1]);
    }
  }

  /** An element waits or was emitted, never both. */
  lemma WaitingIsNotEmitted(s: State, e: Element)
    requires Ascending(s.log.accepted) && KeyInOrder(s.log, e.groupingKey) && e in s.log.accepted
    ensures e in Waiting(s.log.demux, e.groupingKey) <==> e !in s.log.emitted
  {
    var key := e.groupingKey;
    OfKeyMember(s.log.accepted, key, e);
    OfKeyMember(s.log.emitted, key, e);
    OfKeyAscending(s.log.accepted, key);
    var all, emitted, waiting := OfKey(s.log.accepted, key), OfKey(s.log.emitted, key), Waiting(s.log.demux, key);
    forall i, j | 0 <= i < |emitted| && 0 <= j < |waiting|
      ensures emitted[i] != waiting[j]
    {
      assert all[i] == emitted[i] && all[|emitted| + j] == waiting[j];
    }
  }

  /** How many steps of the processor thread are ahead of it, at most. */
  function ProcessorSteps(s: State): nat {
    3 * |s.toProcess| + match s.worker case Idle => 0 case Notifying(_) => 1 case Busy(_) => 2
  }

  /** An emitted element that is not finished can still succeed: the processor gets to it. */
  lemma {:induction false} AheadCanSucceed(s: State, e: Element) returns (more: seq<Step>)
    requires e in Ahead(s)
    ensures e in Run(s, more).succeeded
    decreases ProcessorSteps(s)
  {
    var step := match s.worker case Idle => Take case Busy(_) => Succeed case Notifying(_) => HandOver;
    var s' := Next(s, step);
    RunOne(s, step);
    if s.worker == Busy(e) {
      more := [step];
    } else {
      var later := AheadCanSucceed(s', e);
      RunConcat(s, [step], later);
      more := [step] + later;
    }
  }

  lemma RunOne(s: State, step: Step)
    ensures Run(s, [step]) == Next(s, step)
  {
    RunMore(s, [], step);
    assert [] + [step] == [step];
  }

  /** Some continuation processes an accepted element successfully exactly when it does not wait now and has not
      failed. */
  lemma SucceedsExactlyUnlessWaitingOrFailed(threshold: int, steps: seq<Step>, e: Element)
    ensures var s := Run(Init(threshold), steps);
      e in s.log.accepted ==>
        ((exists more: seq<Step> :: e in Run(s, more).succeeded) <==>
         e !in Waiting(s.log.demux, e.groupingKey) && e !in s.failed)
  {
    RunInvariant(threshold, steps);
    var s := Run(Init(threshold), steps);
    if e in s.log.accepted {
      if e !in Waiting(s.log.demux, e.groupingKey) && e !in s.failed {
        var more := FreeCanSucceed(s, threshold, e);
      } else {
        forall more: seq<Step>
          ensures e !in Run(s, more).succeeded
        {
          StuckNeverSucceeds(s, threshold, e, more);
        }
      }
    }
  }

  lemma StuckNeverSucceeds(s: State, threshold: int, e: Element, more: seq<Step>)
    requires Invariant(s, threshold) && NeverSucceeds(s, e)
    ensures e !in Run(s, more).succeeded
  {
    NeverSucceedsForever(s, threshold, more, e);
    NeverSucceedsIsUnsuccessful(Run(s, more), threshold, e);
  }

  lemma {:induction false} FreeCanSucceed(s: State, threshold: int, e: Element) returns (more: seq<Step>)
    requires Invariant(s, threshold) && e in s.log.accepted
    requires e !in Waiting(s.log.demux, e.groupingKey) && e !in s.failed
    ensures e in Run(s, more).succeeded
  {
    assert KeyInOrder(s.log, e.groupingKey);
    WaitingIsNotEmitted(s, e);
    if e in s.succeeded {
      more := [];
    } else {
      assert e in Ahead(s);
      more := AheadCanSucceed(s, e);
    }
  }

  /** It does happen: the second of two elements of one key waits, and still waits when the first is done. */
  lemma {:induction false} WaitingIsReachable(threshold: int) returns (steps: seq<Step>)
    ensures var s, a, b := Run(Init(threshold), steps), Element(1, "a", 1), Element(2, "b", 1);
      s.log.done == [a] && Waiting(s.log.demux, 1) == [b] && s.actions == [] && s.toProcess == [] && s.worker == Idle
  {
    var a, b := Element(1, "a", 1), Element(2, "b", 1);
    var s;
    steps, s := [], Init(threshold);
    steps, s := TwoMore(threshold, steps, s, Fetch("a", 1), Fetch("b", 1));
    assert s.actions == [ToDemultiplex(a), ToDemultiplex(b)];
    steps, s := TwoMore(threshold, steps, s, RunAction, RunAction);
    SecondWaits(a, b);
    assert s.actions == [] && s.log == Arrive(Arrive(Start(), a), b) && s.toProcess == [a];
    FirstIsDone(s, a);
    steps, s := TwoMore(threshold, steps, s, Take, Succeed);
    steps, s := TwoMore(threshold, steps, s, HandOver, RunAction);
  }

  lemma FirstIsDone(s: State, a: Element)
    requires s.actions == [] && s.toProcess == [a] && s.worker == Idle && !s.demultiplexerFaulted
    requires MarkAsProcessedStep(s.log.demux, a).Some?
    ensures var s' := Next(Next(Next(Next(s, Take), Succeed), HandOver), RunAction);
      s'.log == Finish(s.log, a) && s'.actions == [] && s'.toProcess == [] && s'.worker == Idle
  {
    var notifying := Next(Next(s, Take), Succeed);
    assert notifying.worker == Notifying(a) && notifying.toProcess == [];
    assert notifying.actions == [ToMarkAsProcessed(a)];
  }

  lemma SecondWaits(a: Element, b: Element)
    requires a.uniqueId != b.uniqueId && a.groupingKey == b.groupingKey
    ensures Emits(Empty(), a) == Some(a) && Emits(Arrive(Start(), a).demux, b) == None
    ensures var l := Arrive(Arrive(Start(), a), b);
      && l.done == [] && MarkAsProcessedStep(l.demux, a).Some?
      && Finish(l, a).done == [a] && Waiting(Finish(l, a).demux, a.groupingKey) == [b]
  {
    var key, one := a.groupingKey, Arrive(Start(), a);
    assert key in one.demux.waiting && one.demux.waiting[key] == [] && b.uniqueId !in one.demux.queueOf;
    var two := Arrive(one, b);
    assert two.demux.waiting[key] == [b] && two.demux.queueOf[a.uniqueId] == key;
  }

  /** The element failed, was dropped as a duplicate, or waits. */
  ghost predicate NeverSucceeds(s: State, e: Element) {
    || e in s.failed
    || (e.sequenceNumber <= s.arrived && e !in s.log.accepted)
    || e in Waiting(s.log.demux, e.groupingKey)
  }

  lemma NeverSucceedsStays(s: State, threshold: int, step: Step, e: Element)
    requires Invariant(s, threshold) && NeverSucceeds(s, e)
    ensures NeverSucceeds(Next(s, step), e)
  {
    if e in Waiting(s.log.demux, e.groupingKey) {
      WaitingKept(s, step, e.groupingKey);
    } else if step.RunAction? && s.actions != [] && s.actions[0].ToDemultiplex? {
      NextArrival(s, s.actions[0].element);
    }
  }

  lemma {:induction false} NeverSucceedsForever(s: State, threshold: int, steps: seq<Step>, e: Element)
    requires Invariant(s, threshold) && NeverSucceeds(s, e)
    ensures Invariant(Run(s, steps), threshold) && NeverSucceeds(Run(s, steps), e)
  {
    if steps != [] {
      NeverSucceedsForever(s, threshold, steps[..|steps| - 1], e);
      NextInvariant(Run(s, steps[..|steps| - 1]), threshold, steps[|steps| - 1]);
      NeverSucceedsStays(Run(s, steps[..|steps| - 1]), threshold, steps[|steps| - 1], e);
    }
  }

  lemma NeverSucceedsIsUnsuccessful(s: State, threshold: int, e: Element)
    requires Invariant(s, threshold) && NeverSucceeds(s, e)
    ensures e !in s.succeeded
  {
    assert e in s.succeeded ==> e in s.finished && e in s.log.emitted && e in s.log.accepted;
    if e in s.log.accepted {
      assert KeyInOrder(s.log, e.groupingKey);
      WaitingIsNotEmitted(s, e);
    }
  }

  /** Marks never get past an element that failed, was dropped as a duplicate, or waits, in any continuation. */
  lemma MarksStopBefore(threshold: int, steps: seq<Step>, e: Element, more: seq<Step>)
    requires threshold >= 1
    ensures var s := Run(Init(threshold), steps);
      e in s.fetched && NeverSucceeds(s, e) ==>
        forall m | m in Run(s, more).store.marked :: m.sequenceNumber < e.sequenceNumber
  {
    var s := Run(Init(threshold), steps);
    if e in s.fetched && NeverSucceeds(s, e) {
      RunInvariant(threshold, steps);
      NeverSucceedsForever(s, threshold, more, e);
      NeverSucceedsIsUnsuccessful(Run(s, more), threshold, e);
      FetchedStays(s, more, e);
      RunConcat(Init(threshold), steps, more);
      MarkedMeansProcessed(threshold, steps + more);
    }
  }

  lemma {:induction false} FetchedStays(s: State, steps: seq<Step>, e: Element)
    requires e in s.fetched
    ensures e in Run(s, steps).fetched
  {
    if steps != [] {
      FetchedStays(s, steps[..|steps| - 1], e);
    }
  }
}
