/** FixedSizeChunkBuffer: a FIFO queue that is filled one element and emptied one chunk at a time. */
module ChunkBuffer {

  function Flatten<T>(chunks: seq<seq<T>>): seq<T> {
    if chunks == [] then [] else chunks[0] + Flatten(chunks[1..])
  }

  lemma {:induction false} FlattenConcat<T>(a: seq<seq<T>>, b: seq<seq<T>>)
    ensures Flatten(a + b) == Flatten(a) + Flatten(b)
  {
    if a == [] {
      assert a + b == b;
    } else {
      assert (a + b)[1..] == a[1..] + b;
      FlattenConcat(a[1..], b);
    }
  }

  lemma FlattenOne<T>(a: seq<seq<T>>, chunk: seq<T>)
    ensures Flatten(a + [chunk]) == Flatten(a) + chunk
  {
    FlattenConcat(a, [chunk]);
    assert Flatten([chunk]) == chunk + Flatten([chunk][1..]);
  }

  /** The stored chunks: all but the tail are full, the tail is not. */
  ghost predicate WellFormed<T>(size: int, storage: seq<seq<T>>) {
    && storage != []
    && (forall i | 0 <= i < |storage| - 1 :: |storage[i]| == size && size >= 1)
    && (size >= 1 ==> |storage[|storage| - 1]| < size)
  }

  function AppendStep<T>(size: int, storage: seq<seq<T>>, e: T): seq<seq<T>>
    requires storage != []
  {
    var tail := storage[|storage| - 1] + [e];
    storage[..|storage| - 1] + [tail] + if |tail| == size then [[]] else []
  }

  function TakeStep<T>(storage: seq<seq<T>>): seq<seq<T>>
    requires storage != []
  {
    if storage[0] == [] then storage
    else if |storage| == 1 then [[]]
    else storage[1..]
  }

  /** An append adds at the very end and keeps the shape. */
  lemma AppendIsLast<T>(size: int, storage: seq<seq<T>>, e: T)
    requires WellFormed(size, storage)
    ensures WellFormed(size, AppendStep(size, storage, e))
    ensures Flatten(AppendStep(size, storage, e)) == Flatten(storage) + [e]
  {
    var front, tail := storage[..|storage| - 1], storage[|storage| - 1];
    assert storage == front + [tail];
    FlattenOne(front, tail);
    FlattenOne(front, tail + [e]);
    FlattenOne(front + [tail + [e]], []);
    assert front + [tail + [e]] + [] == front + [tail + [e]];
    assert Flatten(front) + (tail + [e]) == (Flatten(front) + tail) + [e];
  }

  /** A take removes the returned chunk from the very front; the chunk is full unless it was everything, and
      empty only when everything was empty. */
  lemma TakeIsFirst<T>(size: int, storage: seq<seq<T>>)
    requires WellFormed(size, storage)
    ensures WellFormed(size, TakeStep(storage))
    ensures storage[0] + Flatten(TakeStep(storage)) == Flatten(storage)
    ensures (size >= 1 && |storage[0]| == size) || storage[0] == Flatten(storage)
    ensures storage[0] == [] ==> Flatten(storage) == []
  {
    if |storage| == 1 {
      assert Flatten(storage) == storage[0] + Flatten(storage[1..]);
      assert storage[1..] == [];
    }
    assert Flatten<T>([[]]) == [];
  }

  datatype Op<T> = Append(element: T) | TakeOne

  /** The storage after a run and the chunks it returned. */
  datatype Outcome<T> = Outcome(storage: seq<seq<T>>, returned: seq<seq<T>>)

  function Run<T>(size: int, ops: seq<Op<T>>): (r: Outcome<T>)
    ensures r.storage != []
  {
    if ops == [] then Outcome([[]], [])
    else
      var before := Run(size, ops[..|ops| - 1]);
      match ops[|ops| - 1]
      case Append(e) => before.(storage := AppendStep(size, before.storage, e))
      case TakeOne => Outcome(TakeStep(before.storage), before.returned + [before.storage[0]])
  }

  function AppendedBy<T>(ops: seq<Op<T>>): seq<T> {
    if ops == [] then []
    else AppendedBy(ops[..|ops| - 1]) + if ops[|ops| - 1].Append? then [ops[|ops| - 1].element] else []
  }

  /** Returned chunks followed by the storage spell exactly what was appended, for every mix of operations. */
  lemma {:induction false} BufferIsFifo<T>(size: int, ops: seq<Op<T>>)
    ensures WellFormed(size, Run(size, ops).storage)
    ensures Flatten(Run(size, ops).returned) + Flatten(Run(size, ops).storage) == AppendedBy(ops)
  {
    if ops != [] {
      var before := Run(size, ops[..|ops| - 1]);
      BufferIsFifo(size, ops[..|ops| - 1]);
      match ops[|ops| - 1]
      case Append(e) =>
        AppendIsLast(size, before.storage, e);
        assert Flatten(before.returned) + (Flatten(before.storage) + [e]) ==
               (Flatten(before.returned) + Flatten(before.storage)) + [e];
      case TakeOne =>
        TakeIsFirst(size, before.storage);
        FlattenOne(before.returned, before.storage[0]);
        Regroup(Flatten(before.returned), before.storage[0], Flatten(TakeStep(before.storage)));
    }
  }

  lemma Regroup<T>(a: seq<T>, b: seq<T>, c: seq<T>)
    ensures a + b + c == a + (b + c)
  {
  }

  // ----- The buffer as the class it is: a list of list objects -----

  class Chunk<T> {
    var items: seq<T>

    constructor ()
      ensures items == []
    {
      items := [];
    }
  }

  class FixedSizeChunkBuffer<T> {
    const chunkSize: int
    var storage: seq<Chunk<T>>

    ghost predicate Valid()
      reads this, storage
    {
      && (forall i, j | 0 <= i < j < |storage| :: storage[i] != storage[j])
      && WellFormed(chunkSize, View())
    }

    ghost function View(): (v: seq<seq<T>>)
      reads this, storage
      ensures |v| == |storage| && forall i | 0 <= i < |v| :: v[i] == storage[i].items
    {
      seq(|storage|, i requires 0 <= i < |storage| reads this, storage => storage[i].items)
    }

    constructor (chunkSize: int)
      ensures Valid() && View() == [[]] && this.chunkSize == chunkSize && fresh(storage)
    {
      this.chunkSize := chunkSize;
      var first := new Chunk();
      storage := [first];
    }

    /** Only the tail list changes; a list added to the storage is a new one. */
    method Append(e: T)
      requires Valid()
      modifies this, storage[|storage| - 1]
      ensures Valid() && View() == AppendStep(chunkSize, old(View()), e)
      ensures forall c | c in storage :: c in old(storage) || fresh(c)
    {
      AppendIsLast(chunkSize, View(), e);
      var tail := storage[|storage| - 1];
      ghost var front := View()[..|storage| - 1];
      tail.items := tail.items + [e];
      assert View() == front + [tail.items];
      if |tail.items| == chunkSize {
        var next := new Chunk();
        storage := storage + [next];
        assert View() == front + [tail.items] + [[]];
      }
    }

    /** The returned list leaves the storage for good, so no later call changes it. */
    method TakeOne() returns (batch: Chunk<T>)
      requires Valid()
      modifies this
      ensures Valid() && View() == TakeStep(old(View()))
      ensures batch.items == old(View())[0]
      ensures batch !in storage && forall c | c in storage :: c in old(storage) || fresh(c)
    {
      TakeIsFirst(chunkSize, View());
      var head := storage[0];
      if |head.items| == 0 {
        batch := new Chunk();
        return;
      }
      batch := head;
      ghost var rest := View()[1..];
      storage := storage[1..];
      assert View() == rest;
      if |storage| == 0 {
        var next := new Chunk();
        storage := [next];
        assert View() == [[]];
      }
    }
  }
}
