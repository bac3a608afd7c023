/** What the demultiplexer keeps for every grouping key, whatever arrives. */
module KeyOrder {
  import opened Elements
  import opened Demultiplexing

  /** The demultiplexer together with what happened: `accepted` (not dropped as duplicates), `emitted` to
      processing, and `done` (MarkAsProcessed), each in order. */
  datatype Log = Log(demux: Demux, accepted: seq<Element>, emitted: seq<Element>, done: seq<Element>)

  function Start(): Log {
    Log(Empty(), [], [], [])
  }

  function Arrive(l: Log, e: Element): Log {
    Log(DemultiplexStep(l.demux, e),
        if IsDuplicate(l.demux, e) then l.accepted else l.accepted + [e],
        if Emits(l.demux, e).Some? then l.emitted + [e] else l.emitted,
        l.done)
  }

  function Waiting(d: Demux, key: Key): seq<Element> {
    if key in d.waiting then d.waiting[key] else []
  }

  /** One key's history: all accepted elements are emitted or wait, in that order; all emitted ones but at most
      the last are done; an unblocked key has nothing in flight and a blocked one with no one waiting has. */
  ghost predicate InOrder(accepted: seq<Element>, emitted: seq<Element>, done: seq<Element>,
                          blocked: bool, waiting: seq<Element>)
  {
    && done <= emitted && |emitted| <= |done| + 1
    && accepted == emitted + waiting
    && (!blocked ==> emitted == done && waiting == [])
    && (blocked && waiting == [] ==> |emitted| == |done| + 1)
  }

  ghost predicate KeyInOrder(l: Log, key: Key) {
    InOrder(OfKey(l.accepted, key), OfKey(l.emitted, key), OfKey(l.done, key),
            key in l.demux.waiting, Waiting(l.demux, key))
  }

  ghost predicate Outstanding(l: Log, e: Element) {
    e in l.accepted && e !in l.done
  }

  /** The map holds exactly the ids of the outstanding elements, each id for one element. */
  ghost predicate MapIsExact(l: Log) {
    && (forall e | Outstanding(l, e) :: e.uniqueId in l.demux.queueOf && l.demux.queueOf[e.uniqueId] == e.groupingKey)
    && (forall e, f | Outstanding(l, e) && Outstanding(l, f) && e.uniqueId == f.uniqueId :: e == f)
    && (forall id | id in l.demux.queueOf :: exists e :: Outstanding(l, e) && e.uniqueId == id)
  }

  ghost predicate NoElementTwice(es: seq<Element>) {
    forall i, j | 0 <= i < j < |es| :: es[i] != es[j]
  }

  ghost predicate Orderly(l: Log) {
    && NoElementTwice(l.accepted)
    && (forall key :: KeyInOrder(l, key))
    && MapIsExact(l)
    && (forall e | e in l.emitted :: e in l.accepted)
    && (forall e | e in l.done :: e in l.emitted)
  }

  lemma StartOrderly()
    ensures Orderly(Start())
  {
  }

  /** Any element that was not accepted before may arrive. */
  lemma ArriveOrderly(l: Log, e: Element)
    requires Orderly(l) && e !in l.accepted
    ensures Orderly(Arrive(l, e))
  {
    if !IsDuplicate(l.demux, e) {
      var l' := Arrive(l, e);
      forall key
        ensures KeyInOrder(l', key)
      {
        assert KeyInOrder(l, key);
        ArriveKey(l, e, key);
      }
      ArriveMapIsExact(l, e);
    }
  }

  lemma ArriveKey(l: Log, e: Element, key: Key)
    requires KeyInOrder(l, key) && !IsDuplicate(l.demux, e)
    ensures KeyInOrder(Arrive(l, e), key)
  {
    if e.groupingKey == key {
      ArriveOwnKey(l, e);
    } else {
      ArriveOtherKey(l, e, key);
    }
  }

  lemma ArriveOtherKey(l: Log, e: Element, key: Key)
    requires !IsDuplicate(l.demux, e) && e.groupingKey != key
    ensures var l' := Arrive(l, e);
      && OfKey(l'.accepted, key) == OfKey(l.accepted, key) && OfKey(l'.emitted, key) == OfKey(l.emitted, key)
      && l'.done == l.done && Waiting(l'.demux, key) == Waiting(l.demux, key)
      && (key in l'.demux.waiting <==> key in l.demux.waiting)
  {
    OfKeyOne(l.accepted, e, key);
    OfKeyOne(l.emitted, e, key);
  }

  lemma ArriveOwnKey(l: Log, e: Element)
    requires KeyInOrder(l, e.groupingKey) && !IsDuplicate(l.demux, e)
    ensures KeyInOrder(Arrive(l, e), e.groupingKey)
  {
    var key := e.groupingKey;
    OfKeyOne(l.accepted, e, key);
    if key in l.demux.waiting {
      ArriveInOrder(OfKey(l.accepted, key), OfKey(l.emitted, key), OfKey(l.done, key),
                    true, Waiting(l.demux, key), e);
    } else {
      OfKeyOne(l.emitted, e, key);
      ArriveInOrder(OfKey(l.accepted, key), OfKey(l.emitted, key), OfKey(l.done, key), false, [], e);
    }
  }

  lemma ArriveInOrder(accepted: seq<Element>, emitted: seq<Element>, done: seq<Element>,
                      blocked: bool, waiting: seq<Element>, e: Element)
    requires InOrder(accepted, emitted, done, blocked, waiting)
    ensures blocked ==> InOrder(accepted + [e], emitted, done, true, waiting + [e])
    ensures !blocked ==> InOrder(accepted + [e], emitted + [e], done, true, [])
  {
    assert (emitted + waiting) + [e] == emitted + (waiting + [e]);
  }

  lemma ArriveMapIsExact(l: Log, e: Element)
    requires MapIsExact(l) && e !in l.accepted && !IsDuplicate(l.demux, e)
    requires forall f | f in l.done :: f in l.accepted
    ensures MapIsExact(Arrive(l, e))
  {
    var l' := Arrive(l, e);
    assert Outstanding(l', e);
    forall f | Outstanding(l, f)
      ensures Outstanding(l', f)
    {
    }
    forall f | Outstanding(l', f)
      ensures f == e || Outstanding(l, f)
    {
    }
  }

  // ----- Which elements are dropped, emitted and held back -----

  /** An element is dropped exactly when an outstanding one has its id; any other is accepted. */
  lemma DropsExactlyOutstandingIds(l: Log, e: Element)
    requires Orderly(l) && e !in l.accepted
    ensures Arrive(l, e).accepted == l.accepted <==> exists f :: Outstanding(l, f) && f.uniqueId == e.uniqueId
    ensures Arrive(l, e).accepted == l.accepted ==> Arrive(l, e) == l
    ensures Arrive(l, e).accepted != l.accepted ==> Arrive(l, e).accepted == l.accepted + [e]
  {
    assert |l.accepted + [e]| != |l.accepted|;
  }

  /** An accepted element goes on to processing at once exactly when nothing of its key is outstanding. */
  lemma EmitsExactlyFreeKeys(l: Log, e: Element)
    requires Orderly(l) && e !in l.accepted && Arrive(l, e).accepted == l.accepted + [e]
    ensures Arrive(l, e).done == l.done
    ensures Arrive(l, e).emitted ==
      if exists f :: Outstanding(l, f) && f.groupingKey == e.groupingKey then l.emitted else l.emitted + [e]
  {
    assert |l.accepted + [e]| != |l.accepted|;
    BlockedExactlyWhileOutstanding(l, e.groupingKey);
  }

  lemma BlockedExactlyWhileOutstanding(l: Log, key: Key)
    requires Orderly(l)
    ensures key in l.demux.waiting <==> exists f :: Outstanding(l, f) && f.groupingKey == key
  {
    var accepted, done := OfKey(l.accepted, key), OfKey(l.done, key);
    assert KeyInOrder(l, key);
    if key in l.demux.waiting {
      var f := accepted[|done|];
      OfKeyOnce(l.accepted, key);
      assert accepted[..|done|] == done && f !in done;
      OfKeyMember(l.accepted, key, f);
      OfKeyMember(l.done, key, f);
      assert Outstanding(l, f);
    } else {
      forall f | Outstanding(l, f)
        ensures f.groupingKey != key
      {
        OfKeyMember(l.accepted, key, f);
        OfKeyMember(l.done, key, f);
      }
    }
  }

  lemma {:induction false} OfKeyOnce(es: seq<Element>, key: Key)
    requires NoElementTwice(es)
    ensures NoElementTwice(OfKey(es, key))
  {
    if es != [] {
      var front, last := es[..|es| - 1], es[|es| - 1];
      OfKeyOnce(front, key);
      OfKeyMember(front, key, last);
    }
  }

  /** MarkAsProcessed finds an element exactly when its id is an outstanding one's. */
  lemma FindsExactlyOutstandingIds(l: Log, e: Element)
    requires Orderly(l)
    ensures MarkAsProcessedStep(l.demux, e).Some? <==> exists f :: Outstanding(l, f) && f.uniqueId == e.uniqueId
  {
  }

  /** MarkAsProcessed of an element in flight finds it. */
  function Finish(l: Log, e: Element): Log {
    match MarkAsProcessedStep(l.demux, e)
    case Some(d) => l.(demux := d, done := l.done + [e])
    case None => l
  }

  /** An emitted element that is not done is the one in flight for its key. */
  lemma EmittedIsInFlight(l: Log, e: Element)
    requires KeyInOrder(l, e.groupingKey) && e in l.emitted && e !in l.done
    ensures OfKey(l.emitted, e.groupingKey) == OfKey(l.done, e.groupingKey) + [e]
  {
    OfKeyMember(l.emitted, e.groupingKey, e);
    OfKeyMember(l.done, e.groupingKey, e);
    OnlyNewOne(OfKey(l.emitted, e.groupingKey), OfKey(l.done, e.groupingKey), e);
  }

  lemma OnlyNewOne(longer: seq<Element>, shorter: seq<Element>, e: Element)
    requires shorter <= longer && |longer| <= |shorter| + 1 && e in longer && e !in shorter
    ensures longer == shorter + [e]
  {
    var i :| 0 <= i < |longer| && longer[i] == e;
    assert i == |shorter|;
  }

  lemma FinishOrderly(l: Log, e: Element)
    requires Orderly(l) && e in l.emitted && e !in l.done
    ensures MarkAsProcessedStep(l.demux, e).Some?
    ensures Orderly(Finish(l, e))
  {
    assert Outstanding(l, e);
    EmittedIsInFlight(l, e);
    var l' := Finish(l, e);
    forall key
      ensures KeyInOrder(l', key)
    {
      assert KeyInOrder(l, key);
      FinishKey(l, e, key);
    }
    FinishMapIsExact(l, e);
  }

  lemma FinishKey(l: Log, e: Element, key: Key)
    requires KeyInOrder(l, key) && MarkAsProcessedStep(l.demux, e).Some?
    requires l.demux.queueOf[e.uniqueId] == e.groupingKey
    requires e.groupingKey == key ==> OfKey(l.emitted, key) == OfKey(l.done, key) + [e]
    ensures KeyInOrder(Finish(l, e), key)
  {
    OfKeyOne(l.done, e, key);
    if e.groupingKey != key {
      assert key in Finish(l, e).demux.waiting <==> key in l.demux.waiting;
    }
  }

  lemma FinishMapIsExact(l: Log, e: Element)
    requires MapIsExact(l) && Outstanding(l, e)
    ensures MapIsExact(Finish(l, e))
  {
    var l' := Finish(l, e);
    forall f
      ensures Outstanding(l', f) <==> Outstanding(l, f) && f != e
    {
    }
    forall id | id in l'.demux.queueOf
      ensures exists f :: Outstanding(l', f) && f.uniqueId == id
    {
      var f :| Outstanding(l, f) && f.uniqueId == id;
      assert Outstanding(l', f);
    }
  }

  /** Once something waits, its key emits nothing more: MarkAsProcessed never dequeues. */
  lemma WaitingKeyStaysBlocked(l: Log, e: Element, key: Key)
    requires Waiting(l.demux, key) != []
    ensures Waiting(l.demux, key) <= Waiting(Arrive(l, e).demux, key)
    ensures OfKey(Arrive(l, e).emitted, key) == OfKey(l.emitted, key)
    ensures Waiting(Finish(l, e).demux, key) == Waiting(l.demux, key) && Finish(l, e).emitted == l.emitted
  {
    OfKeyOne(l.emitted, e, key);
  }
}
