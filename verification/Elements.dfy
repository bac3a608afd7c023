/** What flows through the event bus: the parts of IProcessingElement that the bus reads. */
module Elements {
  import opened Common

  type Key = nat

  datatype Element = Element(sequenceNumber: int, uniqueId: Id, groupingKey: Key)

  /** Sequence numbers go up from each element to the next. */
  ghost predicate Ascending(es: seq<Element>) {
    forall i, j | 0 <= i < j < |es| :: es[i].sequenceNumber < es[j].sequenceNumber
  }

  /** The elements of one grouping key, in order. */
  function OfKey(es: seq<Element>, key: Key): seq<Element> {
    if es == [] then []
    else OfKey(es[..|es| - 1], key) + if es[|es| - 1].groupingKey == key then [es[|es| - 1]] else []
  }

  lemma {:induction false} OfKeyConcat(a: seq<Element>, b: seq<Element>, key: Key)
    ensures OfKey(a + b, key) == OfKey(a, key) + OfKey(b, key)
  {
    if b == [] {
      assert a + b == a;
    } else {
      assert (a + b)[..|a + b| - 1] == a + b[..|b| - 1];
      OfKeyConcat(a, b[..|b| - 1], key);
    }
  }

  lemma {:induction false} OfKeyMember(es: seq<Element>, key: Key, e: Element)
    ensures e in OfKey(es, key) <==> e in es && e.groupingKey == key
  {
    if es != [] {
      var front, last := es[..|es| - 1], es[|es| - 1];
      OfKeyMember(front, key, e);
      assert es == front + [last];
    }
  }

  lemma OfKeyOne(es: seq<Element>, e: Element, key: Key)
    ensures OfKey(es + [e], key) == OfKey(es, key) + if e.groupingKey == key then [e] else []
  {
    assert (es + [e])[..|es|] == es;
  }
}
