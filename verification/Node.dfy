/** The objects of an invoker node, run event by event, simulate the dispatcher machine: what is
    proved about every run of the machine holds for the objects. */
module Node {
  import opened Seuss
  import Dispatcher
  import Invoker
  import WorkQueue

  /** The objects hold the machine's queue, pending Pokes and the counter of the invoker's core. */
  ghost predicate Represents(k: Dispatcher.Config, s: Dispatcher.State,
                             root: Invoker.InvokerRoot, invoker: Invoker.Invoker, pokes: array<nat>)
    reads root, invoker, pokes
  {
    && s.queue == root.Queue()
    && |s.cores| == pokes.Length && invoker.core < pokes.Length
    && (forall c | 0 <= c < pokes.Length :: s.cores[c].pokes == pokes[c])
    && s.cores[invoker.core].counter == invoker.requestConcurrency
    && k.limit == invoker.requestConcurrencyLimit
  }

  /** A request arrives on the I/O core. */
  method AddWork(ghost k: Dispatcher.Config, ghost s: Dispatcher.State, inv: Invocation, ioCore: nat,
                 root: Invoker.InvokerRoot, invoker: Invoker.Invoker, pokes: array<nat>)
    requires Dispatcher.Inv(k, s) && Represents(k, s, root, invoker, pokes) && ioCore == k.ioCore < pokes.Length
    requires Dispatcher.Enabled(k, s, Dispatcher.AddWork(inv))
    modifies root, pokes
    ensures Represents(k, Dispatcher.Step(k, s, Dispatcher.AddWork(inv)), root, invoker, pokes)
  {
    var r := root.AddWork(inv, ioCore, pokes);
  }

  /** The event loop of the invoker's core runs one of its pending Pokes. */
  method RunPoke(ghost k: Dispatcher.Config, ghost s: Dispatcher.State,
                 root: Invoker.InvokerRoot, invoker: Invoker.Invoker, pokes: array<nat>)
    returns (work: Option<Invocation>)
    requires Dispatcher.Inv(k, s) && Represents(k, s, root, invoker, pokes) && pokes[invoker.core] > 0
    modifies root, invoker`requestConcurrency, invoker`invctr, pokes
    ensures Dispatcher.Enabled(k, s, Dispatcher.Poke(invoker.core))
    ensures var s' := Dispatcher.Step(k, s, Dispatcher.Poke(invoker.core));
      && Represents(k, s', root, invoker, pokes)
      && s'.cores[invoker.core].frames ==
           if work.Some? then s.cores[invoker.core].frames[work.value.info.transactionId := work.value]
           else s.cores[invoker.core].frames
  {
    hide Dispatcher.Conserved, Dispatcher.CoreOk;
    pokes[invoker.core] := pokes[invoker.core] - 1;
    assert s.queue.order != [] ==> s.queue.order[0] in s.queue.order;
    work := invoker.Poke(root);
  }

  /** `Invoke` returns on the invoker's core. */
  method EndInvoke(ghost k: Dispatcher.Config, ghost s: Dispatcher.State, tid: Tid,
                   root: Invoker.InvokerRoot, invoker: Invoker.Invoker, pokes: array<nat>)
    requires Represents(k, s, root, invoker, pokes)
    requires Dispatcher.Enabled(k, s, Dispatcher.Finish(invoker.core, tid))
    modifies invoker`requestConcurrency, pokes
    ensures Represents(k, Dispatcher.Step(k, s, Dispatcher.Finish(invoker.core, tid)), root, invoker, pokes)
  {
    invoker.EndInvoke(pokes);
    assert forall c | 0 <= c < pokes.Length :: pokes[c] == pokes[..][c];
  }
}
