/** The request queue of the invoker root: a queue of transaction ids beside a table from
    transaction id to Invocation. The two together refine a plain FIFO of Invocations. */
module WorkQueue {
  import opened Seuss

  datatype Queue = Queue(order: seq<Tid>, table: map<Tid, Invocation>)

  const EMPTY := Queue([], map[])

  ghost predicate Valid(q: Queue) {
    && (forall i, j | 0 <= i < j < |q.order| :: q.order[i] != q.order[j])
    && (forall t :: t in q.order <==> t in q.table)
    && (forall t | t in q.table :: q.table[t].info.transactionId == t)
  }

  /** The queue as its clients see it: the invocations, oldest first. */
  ghost function Contents(q: Queue): (c: seq<Invocation>)
    requires Valid(q)
    ensures |c| == |q.order|
  {
    seq(|q.order|, i requires 0 <= i < |q.order| => q.table[q.order[i]])
  }

  function Add(q: Queue, inv: Invocation): Queue {
    Queue(q.order + [inv.info.transactionId], q.table[inv.info.transactionId := inv])
  }

  /** Drops the front entry; its table entry must exist (the assertion of `GetWork`). */
  function Take(q: Queue): Queue
    requires q.order != []
  {
    Queue(q.order[1..], q.table - {q.order[0]})
  }

  lemma AddAppends(q: Queue, inv: Invocation)
    requires Valid(q) && inv.info.transactionId !in q.table
    ensures Valid(Add(q, inv))
    ensures Contents(Add(q, inv)) == Contents(q) + [inv]
  {
    var t := inv.info.transactionId;
    assert t !in q.order;
    forall u ensures u in Add(q, inv).order <==> u in Add(q, inv).table {
      assert u in q.order + [t] <==> u in q.order || u == t;
    }
  }

  lemma RestOfOrder(order: seq<Tid>)
    requires order != [] && forall i, j | 0 <= i < j < |order| :: order[i] != order[j]
    ensures forall i, j | 0 <= i < j < |order[1..]| :: order[1..][i] != order[1..][j]
    ensures forall u :: u in order[1..] <==> u in order && u != order[0]
  {
    assert order == [order[0]] + order[1..];
    assert order[0] !in order[1..];
  }

  lemma TakeServesOldest(q: Queue)
    requires Valid(q) && q.order != []
    ensures q.order[0] in q.table
    ensures q.table[q.order[0]] == Contents(q)[0]
    ensures Valid(Take(q))
    ensures Contents(Take(q)) == Contents(q)[1..]
  {
    RestOfOrder(q.order);
    assert q.order[0] in q.order;
    assert Valid(Take(q));
  }
}
