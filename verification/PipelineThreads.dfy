/** Pipeline as the object it is: three queues, the demultiplexer and the marking store, and what each thread does
    between two of its queue operations. */
module PipelineThreads {
  import opened Common
  import opened Elements
  import opened LazyMarking
  import opened Demultiplexing
  import opened PipelineMachine

  /** What a store hands to the fetcher: an element before it is numbered. */
  datatype Raw = Raw(id: Id, key: Key)

  function FetchSteps(batch: seq<Raw>): seq<Step> {
    seq(|batch|, i requires 0 <= i < |batch| => Fetch(batch[i].id, batch[i].key))
  }

  class Pipeline {
    var sequence: int
    var preDemultiplexingQueue: seq<Action>
    var preProcessingQueue: seq<Element>
    var postProcessingQueue: seq<Element>
    var worker: Worker
    var demultiplexerDied: bool
    var markerDied: bool
    const demultiplexer: Demultiplexer
    const elementStore: LazyMarkingBrowsableElementStore
    ghost const markedBefore: seq<Element>  // what earlier runs marked in the wrapped store
    ghost var View: State

    /** The fields and the two objects are what the machine's state says. */
    ghost predicate Valid()
      reads this, demultiplexer, demultiplexer.queues,
            elementStore, elementStore.wrappedStore, elementStore.cursorCalculator
    {
      Linked() && View.log.demux == demultiplexer.View
    }

    /** All of it but the demultiplexer's state. */
    ghost predicate Linked()
      reads this, demultiplexer, demultiplexer.queues,
            elementStore, elementStore.wrappedStore, elementStore.cursorCalculator
    {
      && demultiplexer.Valid()
      && elementStore.wrappedStore.marked == markedBefore + View.store.marked
      && View.store == elementStore.View().(marked := View.store.marked, faulted := markerDied)
      && View.nextNumber == sequence && View.actions == preDemultiplexingQueue
      && View.toProcess == preProcessingQueue && View.toMark == postProcessingQueue
      && View.worker == worker && View.demultiplexerFaulted == demultiplexerDied
    }

    constructor (wrappedStore: WrappedStore, threshold: int)
      ensures Valid() && View == Init(threshold) && fresh(demultiplexer) && fresh(elementStore)
      ensures elementStore.wrappedStore == wrappedStore && markedBefore == wrappedStore.marked
    {
      sequence := 1;
      preDemultiplexingQueue, preProcessingQueue, postProcessingQueue := [], [], [];
      worker, demultiplexerDied, markerDied := Idle, false, false;
      demultiplexer := new Demultiplexer();
      elementStore := new LazyMarkingBrowsableElementStore(wrappedStore, threshold);
      markedBefore := wrappedStore.marked;
      View := Init(threshold);
    }

    /** ElementFetcher.Fetch with OnElementFetched, under the fetch lock: a whole batch, one step per element. */
    method FetchBatch(batch: seq<Raw>)
      requires Valid()
      modifies this
      ensures Valid() && View == Run(old(View), FetchSteps(batch))
      ensures sequence == old(sequence) + |batch|
      ensures |preDemultiplexingQueue| == |old(preDemultiplexingQueue)| + |batch|
    {
      var i := 0;
      while i < |batch|
        invariant 0 <= i <= |batch| && Valid() && sequence == old(sequence) + i
        invariant View == Run(old(View), FetchSteps(batch[..i]))
        invariant |preDemultiplexingQueue| == |old(preDemultiplexingQueue)| + i
      {
        FetchOne(batch[i]);
        assert FetchSteps(batch[..i + 1]) == FetchSteps(batch[..i]) + [Fetch(batch[i].id, batch[i].key)];
        RunMore(old(View), FetchSteps(batch[..i]), Fetch(batch[i].id, batch[i].key));
        i := i + 1;
      }
      assert batch[..i] == batch;
    }

    method FetchOne(raw: Raw)
      requires Valid()
      modifies this
      ensures Valid() && View == Next(old(View), Fetch(raw.id, raw.key))
      ensures sequence == old(sequence) + 1
      ensures preDemultiplexingQueue ==
              old(preDemultiplexingQueue) + [ToDemultiplex(Element(old(sequence), raw.id, raw.key))]
    {
      var e := Element(sequence, raw.id, raw.key);
      sequence := sequence + 1;
      preDemultiplexingQueue := preDemultiplexingQueue + [ToDemultiplex(e)];
      View := FetchStep(View, e);
    }

    /** The demultiplexer thread runs the oldest closure; an exception ends it. */
    method DemultiplexOne()
      requires Valid()
      modifies this, demultiplexer, demultiplexer.queues
      ensures Valid() && View == Next(old(View), RunAction)
      ensures old(preDemultiplexingQueue) != [] && !old(demultiplexerDied) ==>
        preDemultiplexingQueue == old(preDemultiplexingQueue)[1..]
      ensures forall q | q in demultiplexer.queues && q !in old(demultiplexer.queues) :: fresh(q)
    {
      if |preDemultiplexingQueue| == 0 || demultiplexerDied {
        return;
      }
      match preDemultiplexingQueue[0]
      case ToDemultiplex(e) => RunDemultiplex(e);
      case ToMarkAsProcessed(e) => RunMarkAsProcessed(e);
    }

    method RunDemultiplex(e: Element)
      requires Valid() && !demultiplexerDied && |preDemultiplexingQueue| > 0
      requires preDemultiplexingQueue[0] == ToDemultiplex(e)
      modifies this, demultiplexer, demultiplexer.queues
      ensures Valid() && View == DemultiplexerStep(old(View).(actions := old(View).actions[1..]), e)
      ensures forall q | q in demultiplexer.queues && q !in old(demultiplexer.queues) :: fresh(q)
    {
      var emitted := demultiplexer.Demultiplex(e);
      Arrived(e, emitted);
    }

    method Arrived(e: Element, emitted: Option<Element>)
      requires Linked() && |preDemultiplexingQueue| > 0
      requires demultiplexer.View == DemultiplexStep(View.log.demux, e) && emitted == Emits(View.log.demux, e)
      modifies this
      ensures Valid() && View == DemultiplexerStep(old(View).(actions := old(View).actions[1..]), e)
    {
      preDemultiplexingQueue := preDemultiplexingQueue[1..];
      if emitted.Some? {
        preProcessingQueue := preProcessingQueue + [emitted.value];
      }
      View := DemultiplexerStep(View.(actions := View.actions[1..]), e);
    }

    method RunMarkAsProcessed(e: Element)
      requires Valid() && !demultiplexerDied && |preDemultiplexingQueue| > 0
      requires preDemultiplexingQueue[0] == ToMarkAsProcessed(e)
      modifies this, demultiplexer
      ensures Valid() && View == ProcessedStep(old(View).(actions := old(View).actions[1..]), e)
      ensures forall q | q in demultiplexer.queues :: q in old(demultiplexer.queues)
    {
      var found := demultiplexer.MarkAsProcessed(e);
      Completed(e, found);
    }

    method Completed(e: Element, found: bool)
      requires Linked() && !demultiplexerDied && |preDemultiplexingQueue| > 0
      requires found <==> MarkAsProcessedStep(View.log.demux, e).Some?
      requires demultiplexer.View == if found then MarkAsProcessedStep(View.log.demux, e).value else View.log.demux
      modifies this
      ensures Valid() && View == ProcessedStep(old(View).(actions := old(View).actions[1..]), e)
    {
      preDemultiplexingQueue := preDemultiplexingQueue[1..];
      demultiplexerDied := !found;
      View := ProcessedStep(View.(actions := View.actions[1..]), e);
    }

    /** The processor thread takes the oldest element. */
    method TakeElement()
      requires Valid()
      modifies this
      ensures Valid() && View == Next(old(View), Take)
      ensures if old(worker).Idle? && old(preProcessingQueue) != [] then
                worker == Busy(old(preProcessingQueue)[0]) && preProcessingQueue == old(preProcessingQueue)[1..]
              else worker == old(worker) && preProcessingQueue == old(preProcessingQueue)
    {
      if worker.Idle? && |preProcessingQueue| > 0 {
        worker := Busy(preProcessingQueue[0]);
        preProcessingQueue := preProcessingQueue[1..];
      }
      View := Next(View, Take);
    }

    /** ProcessNext after IElementProcessor.Process returned or threw. */
    method FinishProcessing(succeeded: bool)
      requires Valid()
      modifies this
      ensures Valid() && View == Next(old(View), if succeeded then Succeed else Fail)
      ensures old(worker).Busy? ==> View.finished == old(View).finished + [old(worker).element]
      ensures old(worker).Busy? ==> worker == if succeeded then Notifying(old(worker).element) else Idle
      ensures preDemultiplexingQueue == old(preDemultiplexingQueue) +
        if old(worker).Busy? && succeeded then [ToMarkAsProcessed(old(worker).element)] else []
      ensures old(worker).Busy? && succeeded ==>
        View.succeeded == old(View).succeeded + [old(worker).element] && View.failed == old(View).failed
      ensures old(worker).Busy? && !succeeded ==>
        View.failed == old(View).failed + [old(worker).element] && View.succeeded == old(View).succeeded
    {
      if worker.Busy? {
        if succeeded {
          preDemultiplexingQueue := preDemultiplexingQueue + [ToMarkAsProcessed(worker.element)];
          worker := Notifying(worker.element);
        } else {
          worker := Idle;
        }
      }
      View := Next(View, if succeeded then Succeed else Fail);
    }

    /** The second half of OnEventProcessed. */
    method HandOverElement()
      requires Valid()
      modifies this
      ensures Valid() && View == Next(old(View), HandOver)
      ensures old(worker).Notifying? ==>
        worker == Idle && postProcessingQueue == old(postProcessingQueue) + [old(worker).element]
    {
      if worker.Notifying? {
        postProcessingQueue := postProcessingQueue + [worker.element];
        worker := Idle;
      }
      View := Next(View, HandOver);
    }

    /** The post-processor thread marks the oldest element; an exception ends it. */
    method MarkOne()
      requires Valid()
      modifies this, elementStore.wrappedStore, elementStore.cursorCalculator
      ensures Valid() && View == Next(old(View), Mark)
      ensures old(postProcessingQueue) != [] && !old(markerDied) ==>
        && postProcessingQueue == old(postProcessingQueue)[1..]
        && View.appended == old(View).appended + [old(postProcessingQueue)[0]]
    {
      if |postProcessingQueue| == 0 || markerDied {
        return;
      }
      var e := postProcessingQueue[0];
      postProcessingQueue := postProcessingQueue[1..];
      markerDied := elementStore.MarkLastProcessedElement(e);
      View := MarkingStep(View.(toMark := View.toMark[1..]), e);
    }
  }
}
