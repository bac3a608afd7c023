/** Demultiplexer and DemultiplexerQueue: one element per grouping key at a time goes on to processing. */
module Demultiplexing {
  import opened Common
  import opened Elements

  /** A key is blocked while it has a queue; `waiting` holds what each queue holds. `queueOf` says which queue
      an accepted element belongs to, by the element's id. */
  datatype Demux = Demux(waiting: map<Key, seq<Element>>, queueOf: map<Id, Key>)

  function Empty(): Demux {
    Demux(map[], map[])
  }

  predicate IsDuplicate(d: Demux, e: Element) {
    e.uniqueId in d.queueOf
  }

  /** The element passed on to processing, if any. */
  function Emits(d: Demux, e: Element): Option<Element> {
    if IsDuplicate(d, e) || e.groupingKey in d.waiting then None else Some(e)
  }

  function DemultiplexStep(d: Demux, e: Element): Demux {
    if IsDuplicate(d, e) then d
    else
      var waiting := if e.groupingKey in d.waiting then d.waiting[e.groupingKey] + [e] else [];
      Demux(d.waiting[e.groupingKey := waiting], d.queueOf[e.uniqueId := e.groupingKey])
  }

  /** MarkAsProcessed; None is the KeyNotFoundException. */
  function MarkAsProcessedStep(d: Demux, e: Element): Option<Demux> {
    if e.uniqueId !in d.queueOf then None
    else
      var key := d.queueOf[e.uniqueId];
      var waiting := if key in d.waiting && d.waiting[key] == [] then d.waiting - {key} else d.waiting;
      Some(Demux(waiting, d.queueOf - {e.uniqueId}))
  }

  // ----- The demultiplexer as the classes it is -----

  class DemultiplexerQueue {
    const groupingKey: Key
    var queue: seq<Element>
    ghost const firstId: Id  // of the element the queue was created for

    constructor (groupingKey: Key, ghost firstId: Id)
      ensures this.groupingKey == groupingKey && this.firstId == firstId && queue == []
    {
      this.groupingKey := groupingKey;
      this.firstId := firstId;
      queue := [];
    }

    predicate Accepts(e: Element) {
      groupingKey == e.groupingKey
    }

    method Enqueue(e: Element)
      modifies this
      ensures queue == old(queue) + [e]
    {
      queue := queue + [e];
    }

    predicate IsEmpty()
      reads this
    {
      |queue| == 0
    }
  }

  predicate NoRepeats(qs: seq<DemultiplexerQueue>) {
    qs == [] || (qs[|qs| - 1] !in qs[..|qs| - 1] && NoRepeats(qs[..|qs| - 1]))
  }

  /** List.Remove: by reference, the only occurrence. */
  function Without(qs: seq<DemultiplexerQueue>, q: DemultiplexerQueue): (rest: seq<DemultiplexerQueue>)
    requires NoRepeats(qs)
    ensures NoRepeats(rest) && q !in rest && (forall x | x in rest :: x in qs)
    ensures forall x | x in qs && x != q :: x in rest
  {
    if qs == [] then []
    else if qs[|qs| - 1] == q then qs[..|qs| - 1]
    else
      var rest := Without(qs[..|qs| - 1], q) + [qs[|qs| - 1]];
      assert rest[..|rest| - 1] == Without(qs[..|qs| - 1], q);
      rest
  }

  /** The queues that stay keep their order, which is the order FindQueueFor searches in. */
  lemma {:induction false} WithoutKeepsOrder(qs: seq<DemultiplexerQueue>, i: nat)
    requires NoRepeats(qs) && i < |qs|
    ensures Without(qs, qs[i]) == qs[..i] + qs[i + 1..]
  {
    var front, last := qs[..|qs| - 1], qs[|qs| - 1];
    if i < |front| {
      assert front[i] == qs[i];
      WithoutKeepsOrder(front, i);
    }
  }

  /** List.Add. */
  method WithNew(qs: seq<DemultiplexerQueue>, q: DemultiplexerQueue) returns (more: seq<DemultiplexerQueue>)
    requires NoRepeats(qs) && q !in qs
    ensures NoRepeats(more) && q in more && (forall x | x in more :: x in qs || x == q)
    ensures forall x | x in qs :: x in more
  {
    more := qs + [q];
    assert more[..|qs|] == qs;
  }

  class Demultiplexer {
    var queues: seq<DemultiplexerQueue>
    var queueMap: map<Id, DemultiplexerQueue>
    ghost var byKey: map<Key, DemultiplexerQueue>  // the queue of each blocked key
    ghost var View: Demux

    /** One queue per key, no entry for a queue that is gone, and an empty queue has only its first element's entry. */
    ghost predicate Valid()
      reads this, queues
    {
      && NoRepeats(queues)
      && (forall q | q in queues :: q.groupingKey in byKey && byKey[q.groupingKey] == q)
      && (forall key {:trigger byKey[key]} | key in byKey :: byKey[key] in queues && byKey[key].groupingKey == key)
      && (forall id {:trigger queueMap[id]} | id in queueMap :: queueMap[id] in queues)
      && (forall id {:trigger queueMap[id]} | id in queueMap :: queueMap[id].queue == [] ==> id == queueMap[id].firstId)
      && View.waiting.Keys == byKey.Keys
      && (forall key {:trigger byKey[key]} | key in byKey :: View.waiting[key] == byKey[key].queue)
      && View.queueOf.Keys == queueMap.Keys
      && (forall id {:trigger queueMap[id]} | id in queueMap :: View.queueOf[id] == queueMap[id].groupingKey)
    }

    constructor ()
      ensures Valid() && View == Empty() && queues == []
    {
      queues := [];
      queueMap := map[];
      byKey := map[];
      View := Empty();
    }

    /** The first queue that accepts the element; its position, or the number of queues. */
    function FindQueueFor(e: Element, from: nat): (i: nat)
      requires from <= |queues|
      reads this
      ensures from <= i <= |queues|
      ensures i < |queues| ==> queues[i].Accepts(e)
      ensures forall j | from <= j < i :: !queues[j].Accepts(e)
      decreases |queues| - from
    {
      if from == |queues| || queues[from].Accepts(e) then from else FindQueueFor(e, from + 1)
    }

    /** `emitted` is the EventDemultiplexed event. */
    method Demultiplex(e: Element) returns (emitted: Option<Element>)
      requires Valid()
      modifies this, queues
      ensures Valid() && forall q | q in queues && q !in old(queues) :: fresh(q)
      ensures View == DemultiplexStep(old(View), e)
      ensures emitted == Emits(old(View), e)
    {
      if e.uniqueId in queueMap {
        return None;
      }
      var i := FindQueueFor(e, 0);
      if i < |queues| {
        EnqueueTo(queues[i], e);
        emitted := None;
      } else {
        CreateAndBlockQueueFor(e);
        emitted := Some(e);
      }
    }

    method EnqueueTo(queue: DemultiplexerQueue, e: Element)
      requires Valid() && queue in queues && queue.Accepts(e) && e.uniqueId !in queueMap
      modifies this, queue
      ensures Valid() && queues == old(queues)
      ensures View == DemultiplexStep(old(View), e)
    {
      queueMap := queueMap[e.uniqueId := queue];
      queue.Enqueue(e);
      View := DemultiplexStep(View, e);
    }

    method CreateAndBlockQueueFor(e: Element)
      requires Valid() && e.uniqueId !in queueMap && forall q | q in queues :: !q.Accepts(e)
      modifies this
      ensures Valid() && forall q | q in queues && q !in old(queues) :: fresh(q)
      ensures View == DemultiplexStep(old(View), e)
    {
      var queue := new DemultiplexerQueue(e.groupingKey, e.uniqueId);
      AddBlocked(queue, e);
    }

    method AddBlocked(queue: DemultiplexerQueue, e: Element)
      requires Valid() && e.uniqueId !in queueMap && queue !in queues && forall q | q in queues :: !q.Accepts(e)
      requires queue.groupingKey == e.groupingKey && queue.firstId == e.uniqueId && queue.queue == []
      modifies this
      ensures Valid() && forall q | q in queues :: q in old(queues) || q == queue
      ensures View == DemultiplexStep(old(View), e)
    {
      queues := WithNew(queues, queue);
      queueMap := queueMap[e.uniqueId := queue];
      byKey := byKey[e.groupingKey := queue];
      View := Demux(View.waiting[e.groupingKey := []], View.queueOf[e.uniqueId := e.groupingKey]);
    }

    method MarkAsProcessed(e: Element) returns (found: bool)
      requires Valid()
      modifies this
      ensures Valid() && forall q | q in queues :: q in old(queues)
      ensures found <==> MarkAsProcessedStep(old(View), e).Some?
      ensures View == if found then MarkAsProcessedStep(old(View), e).value else old(View)
    {
      if e.uniqueId !in queueMap {
        return false;
      }
      var queue := queueMap[e.uniqueId];
      queueMap := queueMap - {e.uniqueId};
      View := View.(queueOf := View.queueOf - {e.uniqueId});
      if queue.IsEmpty() {
        Remove(queue);
      }
      found := true;
    }

    method Remove(queue: DemultiplexerQueue)
      requires Valid() && queue in queues && forall id {:trigger queueMap[id]} | id in queueMap :: queueMap[id] != queue
      modifies this
      ensures Valid() && forall q | q in queues :: q in old(queues)
      ensures View == old(View).(waiting := old(View).waiting - {queue.groupingKey})
    {
      queues := Without(queues, queue);
      byKey := byKey - {queue.groupingKey};
      View := View.(waiting := View.waiting - {queue.groupingKey});
    }
  }
}
