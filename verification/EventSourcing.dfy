/** EventSource: applying events live, replaying them from history, and the versions kept meanwhile. */
module EventSourcing {
  import opened Common
  import opened EventStreams

  /** Handlers are named; what a handler does to an aggregate is a parameter: the new state, the handlers it
      registers while handling, and whether it was interested. */
  type HandlerId = nat

  datatype Effect<S> = Effect(state: S, registered: seq<HandlerId>, handled: bool)

  type Dispatch<!S> = (HandlerId, S, Payload) -> Effect<S>

  /** EventSource's fields and the state of its subclass. */
  datatype Aggregate<S> = Aggregate(id: Guid, initialVersion: int, currentVersion: int,
                                    handlers: seq<HandlerId>, state: S)

  /** A newly created instance: version 0, the handlers its constructor registers. */
  function Fresh<S>(id: Guid, handlers: seq<HandlerId>, state: S): Aggregate<S> {
    Aggregate(id, 0, 0, handlers, state)
  }

  // ----- Handling one event -----

  datatype Handling<S> = Handling(aggregate: Aggregate<S>, handled: bool)

  /** The loop over a copy of the handler list: registrations extend the aggregate's list, not the copy. */
  function RunHandlers<S>(d: Dispatch<S>, a: Aggregate<S>, handlers: seq<HandlerId>, e: Payload): (r: Handling<S>)
    ensures r.aggregate.id == a.id && r.aggregate.initialVersion == a.initialVersion
    ensures r.aggregate.currentVersion == a.currentVersion
  {
    if handlers == [] then Handling(a, false)
    else
      var before := RunHandlers(d, a, handlers[..|handlers| - 1], e);
      var effect := d(handlers[|handlers| - 1], before.aggregate.state, e);
      Handling(before.aggregate.(state := effect.state, handlers := before.aggregate.handlers + effect.registered),
               before.handled || effect.handled)
  }

  function Handle<S>(d: Dispatch<S>, a: Aggregate<S>, e: Payload): Handling<S> {
    RunHandlers(d, a, a.handlers, e)
  }

  // ----- Applying a new event -----

  /** GetNextSequence, with its repair of a version that was lost. */
  function NextSequenceNumber<S>(a: Aggregate<S>): int {
    (if a.initialVersion > 0 && a.currentVersion == 0 then a.initialVersion else a.currentVersion) + 1
  }

  datatype Applying<S> =
    | Applied(aggregate: Aggregate<S>, event: UncommittedEvent)
    | NotHandled(aggregate: Aggregate<S>)  // EventNotHandledException; the version has already moved

  function Apply<S>(d: Dispatch<S>, a: Aggregate<S>, e: Payload): Applying<S> {
    var sequence := NextSequenceNumber(a);
    var handling := Handle(d, a.(currentVersion := sequence), e);
    if handling.handled then
      Applied(handling.aggregate, UncommittedEvent(a.id, sequence, a.initialVersion, e))
    else NotHandled(handling.aggregate)
  }

  // ----- Replaying history -----

  datatype ReplayError = UncommittedChanges | OtherSource | OutOfSequence | EventNotHandled

  /** The aggregate as the exception, if any, leaves it. */
  datatype Replaying<S> = Replaying(aggregate: Aggregate<S>, error: Option<ReplayError>)

  /** ValidateHistoricalEvent and ApplyEventFromHistory. */
  function ReplayOne<S>(d: Dispatch<S>, a: Aggregate<S>, e: CommittedEvent): Replaying<S> {
    if e.sourceId != a.id then Replaying(a, Some(OtherSource))
    else if e.sequence != a.currentVersion + 1 then Replaying(a, Some(OutOfSequence))
    else
      var handling := Handle(d, a, e.payload);
      if handling.handled then
        Replaying(handling.aggregate.(currentVersion := handling.aggregate.currentVersion + 1), None)
      else Replaying(handling.aggregate, Some(EventNotHandled))
  }

  function ReplayAll<S>(d: Dispatch<S>, a: Aggregate<S>, es: seq<CommittedEvent>): Replaying<S> {
    if es == [] then Replaying(a, None)
    else
      var before := ReplayAll(d, a, es[..|es| - 1]);
      if before.error.Some? then before else ReplayOne(d, before.aggregate, es[|es| - 1])
  }

  function Replay<S>(d: Dispatch<S>, a: Aggregate<S>, history: CommittedEventStream): Replaying<S> {
    if a.initialVersion != a.currentVersion then Replaying(a, Some(UncommittedChanges))
    else if history.events == [] then Replaying(a, None)
    else
      var r := ReplayAll(d, a.(id := history.sourceId), history.events);
      if r.error.Some? then r else r.(aggregate := r.aggregate.(initialVersion := history.toVersion))
  }

  function AcceptChanges<S>(a: Aggregate<S>): Aggregate<S> {
    a.(initialVersion := a.currentVersion)
  }

  // ----- EventSource as the class it is -----

  class EventSource<S> {
    const dispatch: Dispatch<S>
    var eventSourceId: Guid
    var initialVersion: int
    var currentVersion: int
    var eventHandlers: seq<HandlerId>
    var state: S

    function View(): Aggregate<S>
      reads this
    {
      Aggregate(eventSourceId, initialVersion, currentVersion, eventHandlers, state)
    }

    constructor (dispatch: Dispatch<S>, id: Guid, handlers: seq<HandlerId>, state: S)
      ensures View() == Fresh(id, handlers, state) && this.dispatch == dispatch
    {
      this.dispatch := dispatch;
      eventSourceId, initialVersion, currentVersion := id, 0, 0;
      eventHandlers, this.state := handlers, state;
    }

    method InitializeFromSnapshot(snapshotSourceId: Guid, version: int)
      modifies `eventSourceId, `initialVersion, `currentVersion
      ensures View() == old(View()).(id := snapshotSourceId, initialVersion := version, currentVersion := version)
    {
      eventSourceId, initialVersion, currentVersion := snapshotSourceId, version, version;
    }

    method HandleEvent(e: Payload) returns (handled: bool)
      modifies `eventHandlers, `state
      ensures Handling(View(), handled) == Handle(dispatch, old(View()), e)
    {
      handled := false;
      var handlers := eventHandlers;
      var i := 0;
      while i < |handlers|
        invariant 0 <= i <= |handlers|
        invariant Handling(View(), handled) == RunHandlers(dispatch, old(View()), handlers[..i], e)
      {
        assert handlers[..i + 1][..i] == handlers[..i];
        var effect := dispatch(handlers[i], state, e);
        state := effect.state;
        eventHandlers := eventHandlers + effect.registered;
        handled := handled || effect.handled;
        i := i + 1;
      }
      assert handlers[..i] == handlers;
    }

    method GetNextSequence() returns (sequence: int)
      modifies `currentVersion
      ensures sequence == currentVersion == NextSequenceNumber(old(View()))
      ensures sequence - 1 == if old(currentVersion) == 0 && initialVersion > 0 then initialVersion
                              else old(currentVersion)
    {
      if initialVersion > 0 && currentVersion == 0 {
        currentVersion := initialVersion;
      }
      currentVersion := currentVersion + 1;
      sequence := currentVersion;
    }

    /** The returned event is the EventApplied notification; None is EventNotHandledException. */
    method ApplyEvent(e: Payload) returns (event: Option<UncommittedEvent>)
      modifies this
      ensures match Apply(dispatch, old(View()), e)
              case Applied(a, applied) => View() == a && event == Some(applied)
              case NotHandled(a) => View() == a && event == None
    {
      var sequence := GetNextSequence();
      var handled := HandleEvent(e);
      if !handled {
        return None;
      }
      event := Some(UncommittedEvent(eventSourceId, sequence, initialVersion, e));
    }

    method ApplyEventFromHistory(e: CommittedEvent) returns (error: Option<ReplayError>)
      modifies this
      ensures Replaying(View(), error) == ReplayOne(dispatch, old(View()), e)
    {
      if e.sourceId != eventSourceId {
        return Some(OtherSource);
      }
      if e.sequence != currentVersion + 1 {
        return Some(OutOfSequence);
      }
      var handled := HandleEvent(e.payload);
      if !handled {
        return Some(EventNotHandled);
      }
      currentVersion := currentVersion + 1;
      error := None;
    }

    method InitializeFromHistory(history: CommittedEventStream) returns (error: Option<ReplayError>)
      modifies this
      ensures Replaying(View(), error) == Replay(dispatch, old(View()), history)
    {
      if initialVersion != currentVersion {
        return Some(UncommittedChanges);
      }
      if history.events == [] {
        return None;
      }
      eventSourceId := history.sourceId;
      ghost var start := View();
      error := None;
      var i := 0;
      while i < |history.events|
        invariant 0 <= i <= |history.events|
        invariant error == None && Replaying(View(), None) == ReplayAll(dispatch, start, history.events[..i])
      {
        assert history.events[..i + 1][..i] == history.events[..i];
        error := ApplyEventFromHistory(history.events[i]);
        if error.Some? {
          ReplayStopsAtError(dispatch, start, history.events, i + 1);
          return;
        }
        i := i + 1;
      }
      assert history.events[..i] == history.events;
      initialVersion := history.toVersion;
    }

    method Accept()
      modifies `initialVersion
      ensures View() == AcceptChanges(old(View()))
    {
      initialVersion := currentVersion;
    }
  }

  lemma {:induction false} ReplayStopsAtError<S>(d: Dispatch<S>, a: Aggregate<S>, es: seq<CommittedEvent>, n: nat)
    requires n <= |es| && ReplayAll(d, a, es[..n]).error.Some?
    ensures ReplayAll(d, a, es) == ReplayAll(d, a, es[..n])
    decreases |es|
  {
    if n == |es| {
      assert es[..n] == es;
    } else {
      assert es[..|es| - 1][..n] == es[..n];
      ReplayStopsAtError(d, a, es[..|es| - 1], n);
    }
  }

  // ----- What handling an event does -----

  /** One handler: its effect is the aggregate's, what it registers comes last, and its answer decides. */
  lemma OneHandler<S>(d: Dispatch<S>, a: Aggregate<S>, h: HandlerId, e: Payload)
    ensures var effect := d(h, a.state, e);
      RunHandlers(d, a, [h], e) ==
        Handling(a.(state := effect.state, handlers := a.handlers + effect.registered), effect.handled)
  {
    assert [h][..0] == [] && RunHandlers(d, a, [h][..0], e) == Handling(a, false);
  }

  /** Two stretches of handlers run one after the other, and one of them being interested is enough. */
  lemma {:induction false} HandlersInOrder<S>(d: Dispatch<S>, a: Aggregate<S>, x: seq<HandlerId>, y: seq<HandlerId>,
                                              e: Payload)
    ensures var first := RunHandlers(d, a, x, e);
      var second := RunHandlers(d, first.aggregate, y, e);
      RunHandlers(d, a, x + y, e) == Handling(second.aggregate, first.handled || second.handled)
  {
    if y == [] {
      assert x + y == x;
    } else {
      assert (x + y)[..|x + y| - 1] == x + y[..|y| - 1];
      HandlersInOrder(d, a, x, y[..|y| - 1], e);
    }
  }

  /** The states between the handlers, each called in list order on what the one before left. */
  ghost predicate AreStates<S(!new)>(d: Dispatch<S>, handlers: seq<HandlerId>, e: Payload, states: seq<S>) {
    |states| == |handlers| + 1 &&
    forall i | 0 <= i < |handlers| :: states[i + 1] == d(handlers[i], states[i], e).state
  }

  ghost predicate SomeoneHandles<S(!new)>(d: Dispatch<S>, handlers: seq<HandlerId>, e: Payload, states: seq<S>)
    requires AreStates(d, handlers, e, states)
  {
    exists i :: 0 <= i < |handlers| && d(handlers[i], states[i], e).handled
  }

  lemma {:induction false} HandlersAlong<S(!new)>(d: Dispatch<S>, a: Aggregate<S>, handlers: seq<HandlerId>, e: Payload,
                                                  states: seq<S>)
    requires AreStates(d, handlers, e, states) && states[0] == a.state
    ensures var r := RunHandlers(d, a, handlers, e);
      && (r.handled <==> SomeoneHandles(d, handlers, e, states)) && r.aggregate.state == states[|handlers|]
      && a.handlers <= r.aggregate.handlers
  {
    if handlers != [] {
      var front, fewer := handlers[..|handlers| - 1], states[..|handlers|];
      HandlersAlong(d, a, front, e, fewer);
      assert AreStates(d, front, e, fewer) && fewer[|front|] == states[|front|];
      OneMoreAnswer(d, handlers, e, states);
    }
  }

  lemma OneMoreAnswer<S(!new)>(d: Dispatch<S>, handlers: seq<HandlerId>, e: Payload, states: seq<S>)
    requires AreStates(d, handlers, e, states) && handlers != []
    ensures var n := |handlers| - 1;
      && AreStates(d, handlers[..n], e, states[..|handlers|])
      && (SomeoneHandles(d, handlers, e, states) <==>
            SomeoneHandles(d, handlers[..n], e, states[..|handlers|]) || d(handlers[n], states[n], e).handled)
  {
    var n := |handlers| - 1;
    assert forall i | 0 <= i < n :: handlers[..n][i] == handlers[i] && states[..|handlers|][i] == states[i];
  }

  /** A call throws exactly when no handler that was registered when it began is interested; emitted or not, the state
      is what the handlers leave and the number is used up. Replaying the same event fails in the same case. */
  lemma ThrowsExactlyWhenNobodyHandles<S(!new)>(d: Dispatch<S>, a: Aggregate<S>, e: Payload, states: seq<S>)
    requires a.initialVersion <= a.currentVersion
    requires AreStates(d, a.handlers, e, states) && states[0] == a.state
    ensures var n, live := a.currentVersion + 1, Apply(d, a, e);
      var replayed := ReplayOne(d, a, CommittedEvent(a.id, n, e));
      && live.aggregate.state == replayed.aggregate.state == states[|a.handlers|] && live.aggregate.currentVersion == n
      && (SomeoneHandles(d, a.handlers, e, states) ==>
            live == Applied(live.aggregate, UncommittedEvent(a.id, n, a.initialVersion, e)) && replayed.error == None)
      && (!SomeoneHandles(d, a.handlers, e, states) ==>
            live.NotHandled? && replayed.error == Some(EventNotHandled))
  {
    HandlersAlong(d, a, a.handlers, e, states);
    HandlersAlong(d, a.(currentVersion := NextSequenceNumber(a)), a.handlers, e, states);
  }

  /** Where a replay fails and why: everything before is replayed, and the first event that is another source's, or not
      numbered next, or handled by nobody, in this order, ends it. */
  lemma {:induction false} ReplayFailsAtFirst<S>(d: Dispatch<S>, a: Aggregate<S>, es: seq<CommittedEvent>)
    returns (n: nat)
    requires ReplayAll(d, a, es).error.Some?
    ensures n < |es| && ReplayAll(d, a, es[..n]).error == None
    ensures var r, before := ReplayAll(d, a, es), ReplayAll(d, a, es[..n]).aggregate;
      && (r.error.value == OtherSource <==> es[n].sourceId != a.id)
      && (r.error.value == OutOfSequence <==> es[n].sourceId == a.id && es[n].sequence != a.currentVersion + 1 + n)
      && (r.error.value == EventNotHandled <==> es[n].sourceId == a.id && es[n].sequence == a.currentVersion + 1 + n)
      && (r.error.value != EventNotHandled ==> r.aggregate == before)
      && r.aggregate.currentVersion == a.currentVersion + n
  {
    n := |es| - 1;
    ReplayVersions(d, a, es[..n]);
    if ReplayAll(d, a, es[..n]).error.Some? {
      n := ReplayFailsAtFirst(d, a, es[..|es| - 1]);
      assert es[..|es| - 1][..n] == es[..n];
    }
  }

  // ----- Versions -----

  /** Everything a client can do to an event source. */
  datatype Op =
    | ApplyOp(e: Payload)
    | SnapshotOp(id: Guid, version: int)
    | HistoryOp(history: CommittedEventStream)
    | AcceptOp

  function Do<S>(d: Dispatch<S>, a: Aggregate<S>, op: Op): Aggregate<S> {
    match op
    case ApplyOp(e) => Apply(d, a, e).aggregate
    case SnapshotOp(id, version) => a.(id := id, initialVersion := version, currentVersion := version)
    case HistoryOp(history) => Replay(d, a, history).aggregate
    case AcceptOp => AcceptChanges(a)
  }

  function DoAll<S>(d: Dispatch<S>, a: Aggregate<S>, ops: seq<Op>): Aggregate<S> {
    if ops == [] then a else Do(d, DoAll(d, a, ops[..|ops| - 1]), ops[|ops| - 1])
  }

  /** Histories are streams the constructor accepts. */
  predicate Accepted(history: CommittedEventStream) {
    IsStream(history.sourceId, history.events) && history == StreamOf(history.sourceId, history.events)
  }

  lemma {:induction false} ReplayVersions<S>(d: Dispatch<S>, a: Aggregate<S>, es: seq<CommittedEvent>)
    ensures var r := ReplayAll(d, a, es);
      && r.aggregate.initialVersion == a.initialVersion && r.aggregate.id == a.id
      && a.currentVersion <= r.aggregate.currentVersion
      && (r.error == None ==> r.aggregate.currentVersion == a.currentVersion + |es|
                              && (es != [] ==> r.aggregate.currentVersion == es[|es| - 1].sequence))
  {
    if es != [] {
      ReplayVersions(d, a, es[..|es| - 1]);
    }
  }

  /** What can be replayed without an error carries the next numbers. */
  lemma {:induction false} ReplayNumbers<S>(d: Dispatch<S>, a: Aggregate<S>, es: seq<CommittedEvent>)
    requires ReplayAll(d, a, es).error == None
    ensures forall i | 0 <= i < |es| :: es[i].sequence == a.currentVersion + 1 + i
  {
    if es != [] {
      ReplayNumbers(d, a, es[..|es| - 1]);
      ReplayVersions(d, a, es[..|es| - 1]);
    }
  }

  /** Through any operations, failing ones included, the initial version never passes the current one, so the
      repair in GetNextSequence never has anything to repair: the next number is always the current version + 1. */
  lemma {:induction false} InitialNeverPassesCurrent<S>(d: Dispatch<S>, a: Aggregate<S>, ops: seq<Op>)
    requires a.initialVersion <= a.currentVersion
    requires forall op | op in ops && op.HistoryOp? :: Accepted(op.history)
    ensures DoAll(d, a, ops).initialVersion <= DoAll(d, a, ops).currentVersion
    ensures NextSequenceNumber(DoAll(d, a, ops)) == DoAll(d, a, ops).currentVersion + 1
  {
    if ops != [] {
      var before := DoAll(d, a, ops[..|ops| - 1]);
      InitialNeverPassesCurrent(d, a, ops[..|ops| - 1]);
      var op := ops[|ops| - 1];
      if op.HistoryOp? {
        assert op in ops;
        ReplayVersions(d, before.(id := op.history.sourceId), op.history.events);
      }
    }
  }

  // ----- Live application and replay -----

  /** A run of ApplyEvent calls: the aggregate at the end, what was emitted, and which calls were handled. */
  datatype Live<S> = Live(aggregate: Aggregate<S>, emitted: seq<UncommittedEvent>, handled: seq<bool>)

  function ApplyAll<S>(d: Dispatch<S>, a: Aggregate<S>, es: seq<Payload>): (r: Live<S>)
    ensures |r.handled| == |es|
  {
    if es == [] then Live(a, [], [])
    else
      var before := ApplyAll(d, a, es[..|es| - 1]);
      match Apply(d, before.aggregate, es[|es| - 1])
      case Applied(a', event) => Live(a', before.emitted + [event], before.handled + [true])
      case NotHandled(a') => Live(a', before.emitted, before.handled + [false])
  }

  ghost predicate AllHandled(handled: seq<bool>) {
    forall i | 0 <= i < |handled| :: handled[i]
  }

  /** The emitted events carry the source, the initial version, and consecutive numbers after the start. */
  ghost predicate NumberedFrom<S>(a: Aggregate<S>, emitted: seq<UncommittedEvent>) {
    forall i | 0 <= i < |emitted| ::
      && emitted[i].sourceId == a.id && emitted[i].initialVersion == a.initialVersion
      && emitted[i].sequence == a.currentVersion + 1 + i
  }

  /** Replaying what a live application emitted takes the same step. */
  lemma ReplayFollowsApply<S>(d: Dispatch<S>, a: Aggregate<S>, e: Payload)
    requires a.initialVersion <= a.currentVersion && Apply(d, a, e).Applied?
    ensures ReplayOne(d, a, Committed(Apply(d, a, e).event)) == Replaying(Apply(d, a, e).aggregate, None)
  {
    VersionDoesNotMatter(d, a, a.currentVersion + 1, a.handlers, e);
  }

  /** Handlers see the state and the event, not the version. */
  lemma {:induction false} VersionDoesNotMatter<S>(d: Dispatch<S>, a: Aggregate<S>, version: int,
                                                   handlers: seq<HandlerId>, e: Payload)
    ensures RunHandlers(d, a.(currentVersion := version), handlers, e) ==
            Handling(RunHandlers(d, a, handlers, e).aggregate.(currentVersion := version),
                     RunHandlers(d, a, handlers, e).handled)
  {
    if handlers != [] {
      VersionDoesNotMatter(d, a, version, handlers[..|handlers| - 1], e);
    }
  }

  /** Handlers registered while an event is handled do not see it: how handlers that were not there at the start
      would have treated the event makes no difference, live or in replay. */
  lemma NewHandlersMissTheEvent<S>(d: Dispatch<S>, d': Dispatch<S>, a: Aggregate<S>, e: Payload, c: CommittedEvent)
    requires forall h, s | h in a.handlers :: d(h, s, e) == d'(h, s, e)
    requires c.payload == e
    ensures Apply(d, a, e) == Apply(d', a, e)
    ensures ReplayOne(d, a, c) == ReplayOne(d', a, c)
  {
    SameOnTheseHandlers(d, d', a, a.handlers, e);
    SameOnTheseHandlers(d, d', a.(currentVersion := NextSequenceNumber(a)), a.handlers, e);
  }

  lemma {:induction false} SameOnTheseHandlers<S>(d: Dispatch<S>, d': Dispatch<S>, a: Aggregate<S>,
                                                  handlers: seq<HandlerId>, e: Payload)
    requires forall h, s | h in handlers :: d(h, s, e) == d'(h, s, e)
    ensures RunHandlers(d, a, handlers, e) == RunHandlers(d', a, handlers, e)
  {
    if handlers != [] {
      SameOnTheseHandlers(d, d', a, handlers[..|handlers| - 1], e);
    }
  }

  /** A run of handled calls: numbered consecutively, and replaying what it emitted gives the very same aggregate,
      state, handlers registered on the way, and version. */
  lemma {:induction false} LiveEqualsReplay<S>(d: Dispatch<S>, a: Aggregate<S>, es: seq<Payload>)
    requires a.initialVersion <= a.currentVersion && AllHandled(ApplyAll(d, a, es).handled)
    ensures var live := ApplyAll(d, a, es);
      && NumberedFrom(a, live.emitted) && |live.emitted| == |es|
      && live.aggregate.initialVersion == a.initialVersion && live.aggregate.id == a.id
      && live.aggregate.currentVersion == a.currentVersion + |es|
      && ReplayAll(d, a, AllCommitted(live.emitted)) == Replaying(live.aggregate, None)
  {
    if es != [] {
      var live, before := ApplyAll(d, a, es), ApplyAll(d, a, es[..|es| - 1]);
      assert live.handled[..|es| - 1] == before.handled;
      assert AllHandled(before.handled) && live.handled[|es| - 1];
      LiveEqualsReplay(d, a, es[..|es| - 1]);
      ReplayFollowsApply(d, before.aggregate, es[|es| - 1]);
      var committed := AllCommitted(live.emitted);
      assert committed[..|committed| - 1] == AllCommitted(before.emitted);
    }
  }

  /** A fresh instance: its events are numbered 1..n, make a stream the constructor accepts, and loading that stream
      into any other fresh instance gives the live one with its changes accepted. */
  lemma ReloadingEqualsLive<S>(d: Dispatch<S>, id: Guid, otherId: Guid, handlers: seq<HandlerId>, state: S,
                               es: seq<Payload>)
    requires es != [] && AllHandled(ApplyAll(d, Fresh(id, handlers, state), es).handled)
    ensures var live := ApplyAll(d, Fresh(id, handlers, state), es);
      var history := StreamOf(id, AllCommitted(live.emitted));
      && |live.emitted| == |es| && (forall i | 0 <= i < |es| :: live.emitted[i].sequence == i + 1)
      && Accepted(history)
      && Replay(d, Fresh(otherId, handlers, state), history) == Replaying(AcceptChanges(live.aggregate), None)
  {
    var a := Fresh(id, handlers, state);
    LiveEqualsReplay(d, a, es);
    EmittedMakeStream(a, ApplyAll(d, a, es).emitted);
    ReplayFromStart(d, a, Fresh(otherId, handlers, state), ApplyAll(d, a, es).emitted, ApplyAll(d, a, es).aggregate);
  }

  lemma EmittedMakeStream<S>(a: Aggregate<S>, emitted: seq<UncommittedEvent>)
    requires NumberedFrom(a, emitted)
    ensures Accepted(StreamOf(a.id, AllCommitted(emitted)))
  {
  }

  lemma ReplayFromStart<S>(d: Dispatch<S>, a: Aggregate<S>, other: Aggregate<S>, emitted: seq<UncommittedEvent>,
                           live: Aggregate<S>)
    requires emitted != [] && NumberedFrom(a, emitted) && other.(id := a.id) == a
    requires a.initialVersion == a.currentVersion && live.currentVersion == a.currentVersion + |emitted|
    requires ReplayAll(d, a, AllCommitted(emitted)) == Replaying(live, None)
    ensures Replay(d, other, StreamOf(a.id, AllCommitted(emitted))) == Replaying(AcceptChanges(live), None)
  {
  }

  // ----- Calls nobody handles -----

  lemma {:induction false} EveryCallMovesTheVersion<S>(d: Dispatch<S>, a: Aggregate<S>, es: seq<Payload>)
    requires a.initialVersion <= a.currentVersion
    ensures var live := ApplyAll(d, a, es);
      live.aggregate.currentVersion == a.currentVersion + |es| && live.aggregate.initialVersion == a.initialVersion
      && |live.emitted| <= |es|
  {
    if es != [] {
      EveryCallMovesTheVersion(d, a, es[..|es| - 1]);
    }
  }

  /** Whatever was handled: the emitted events are the source's, on top of its initial version, with numbers
      going up. */
  lemma {:induction false} EmittedAscend<S>(d: Dispatch<S>, a: Aggregate<S>, es: seq<Payload>)
    requires a.initialVersion <= a.currentVersion
    ensures var live := ApplyAll(d, a, es);
      && live.aggregate.id == a.id
      && (forall i | 0 <= i < |live.emitted| ::
            && live.emitted[i].sourceId == a.id && live.emitted[i].initialVersion == a.initialVersion
            && a.currentVersion < live.emitted[i].sequence <= live.aggregate.currentVersion)
      && forall i, j | 0 <= i < j < |live.emitted| :: live.emitted[i].sequence < live.emitted[j].sequence
  {
    if es != [] {
      EmittedAscend(d, a, es[..|es| - 1]);
      EveryCallMovesTheVersion(d, a, es[..|es| - 1]);
    }
  }

  /** History is refused exactly while there are changes that were not accepted, calls that threw included. */
  lemma RefusesHistoryExactlyWithChanges<S>(d: Dispatch<S>, a: Aggregate<S>, es: seq<Payload>,
                                            history: CommittedEventStream)
    requires a.initialVersion == a.currentVersion
    ensures var live := ApplyAll(d, a, es).aggregate;
      && (Replay(d, live, history).error == Some(UncommittedChanges) <==> es != [])
      && (es != [] ==> Replay(d, live, history).aggregate == live)
      && Replay(d, AcceptChanges(live), history).error != Some(UncommittedChanges)
  {
    EveryCallMovesTheVersion(d, a, es);
    var live := ApplyAll(d, a, es).aggregate;
    NeverUncommitted(d, live.(id := history.sourceId), history.events);
    NeverUncommitted(d, AcceptChanges(live).(id := history.sourceId), history.events);
  }

  lemma NeverUncommitted<S>(d: Dispatch<S>, a: Aggregate<S>, es: seq<CommittedEvent>)
    ensures ReplayAll(d, a, es).error != Some(UncommittedChanges)
  {
    if ReplayAll(d, a, es).error.Some? {
      var n := ReplayFailsAtFirst(d, a, es);
    }
  }

  /** No handled call comes after one that threw. */
  ghost predicate HandledFirst(handled: seq<bool>) {
    forall i, j | 0 <= i < j < |handled| && handled[j] :: handled[i]
  }

  ghost predicate Consecutive(emitted: seq<UncommittedEvent>, start: int) {
    forall i | 0 <= i < |emitted| :: emitted[i].sequence == start + 1 + i
  }

  /** A call that throws has used up a number: the emitted numbers are consecutive exactly when nothing was emitted
      after an exception. */
  lemma {:induction false} GapsExactlyAfterExceptions<S>(d: Dispatch<S>, a: Aggregate<S>, es: seq<Payload>)
    requires a.initialVersion <= a.currentVersion
    ensures var live := ApplyAll(d, a, es);
      && (Consecutive(live.emitted, a.currentVersion) <==> HandledFirst(live.handled))
      && (|live.emitted| == |es| <==> AllHandled(live.handled))
  {
    if es != [] {
      var before := ApplyAll(d, a, es[..|es| - 1]);
      GapsExactlyAfterExceptions(d, a, es[..|es| - 1]);
      EveryCallMovesTheVersion(d, a, es[..|es| - 1]);
      match Apply(d, before.aggregate, es[|es| - 1])
      case Applied(_, event) => OneMoreHandled(before.emitted, before.handled, event, a.currentVersion);
      case NotHandled(_) => OneMoreUnhandled(before.handled);
    }
  }

  lemma OneMoreHandled(emitted: seq<UncommittedEvent>, handled: seq<bool>, e: UncommittedEvent, start: int)
    requires e.sequence == start + |handled| + 1 && |emitted| <= |handled|
    requires Consecutive(emitted, start) <==> HandledFirst(handled)
    requires |emitted| == |handled| <==> AllHandled(handled)
    ensures Consecutive(emitted + [e], start) <==> HandledFirst(handled + [true])
    ensures |emitted + [e]| == |handled + [true]| <==> AllHandled(handled + [true])
  {
    var emitted', handled' := emitted + [e], handled + [true];
    assert emitted'[|emitted|] == e && forall i | 0 <= i < |emitted| :: emitted'[i] == emitted[i];
    assert handled'[|handled|] && forall i | 0 <= i < |handled| :: handled'[i] == handled[i];
    assert HandledFirst(handled') <==> AllHandled(handled);
  }

  lemma OneMoreUnhandled(handled: seq<bool>)
    ensures HandledFirst(handled + [false]) <==> HandledFirst(handled)
    ensures !AllHandled(handled + [false])
  {
    var handled' := handled + [false];
    assert !handled'[|handled|] && forall i | 0 <= i < |handled| :: handled'[i] == handled[i];
  }
}
