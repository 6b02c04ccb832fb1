/** The dispatcher: one shared work queue feeding the cores of an invoker node. A core takes work
    only when it runs a Poke event, and a Poke that finds the core saturated is discarded.

    The machine below has one event per atomic stretch of the source: `AddWork` runs under the
    queue lock on the I/O core; `Poke` runs on its core up to the first blocking point of
    `Invoke`; `Finish` is the tail of `Invoke`. */
module Dispatcher {
  import opened Seuss
  import WorkQueue
  import Sums

  const COUNTER_MODULUS := 256  // request_concurrency_ is an atomic uint8_t

  datatype Config = Config(cores: nat, ioCore: nat, limit: nat)

  ghost predicate ValidConfig(k: Config) {
    k.ioCore < k.cores && k.limit < 65536
  }

  /** `pokes` counts the Poke events waiting on the core, `counter` is the narrow concurrency
      counter, `frames` holds the `Invoke` calls that have started and not returned. */
  datatype Core = Core(pokes: nat, counter: nat, frames: map<Tid, Invocation>)

  /** `accepted` and `finished` are history: what `AddWork` took in, what `Invoke` returned from. */
  datatype State = State(
    queue: WorkQueue.Queue,
    cores: seq<Core>,
    accepted: map<Tid, Invocation>,
    finished: map<Tid, Invocation>)

  datatype Event =
    | AddWork(inv: Invocation)
    | Poke(core: nat)
    | Finish(core: nat, tid: Tid)

  function Init(k: Config): State {
    State(WorkQueue.EMPTY, seq(k.cores, _ => Core(0, 0, map[])), map[], map[])
  }

  /** Transaction ids are unique; a Poke event runs once; only a live frame returns. */
  predicate Enabled(k: Config, s: State, e: Event) {
    match e
    case AddWork(inv) => inv.info.transactionId !in s.accepted
    case Poke(c) => c < |s.cores| && s.cores[c].pokes > 0
    case Finish(c, t) => c < |s.cores| && t in s.cores[c].frames
  }

  predicate Dispatches(k: Config, s: State, c: nat)
    requires c < |s.cores|
  {
    s.cores[c].counter < k.limit && s.queue.order != []
  }

  function Woken(core: Core): Core {
    core.(pokes := core.pokes + 1)
  }

  function Consumed(core: Core): Core
    requires core.pokes > 0
  {
    core.(pokes := core.pokes - 1)
  }

  function Started(core: Core, t: Tid, inv: Invocation): Core {
    core.(counter := (core.counter + 1) % COUNTER_MODULUS, frames := core.frames[t := inv])
  }

  function Returned(core: Core, t: Tid): Core {
    core.(counter := (core.counter + COUNTER_MODULUS - 1) % COUNTER_MODULUS, frames := core.frames - {t})
  }

  function Step(k: Config, s: State, e: Event): State
    requires Enabled(k, s, e)
  {
    match e
    case AddWork(inv) =>
      s.(queue := WorkQueue.Add(s.queue, inv),
         cores := seq(|s.cores|, i requires 0 <= i < |s.cores| =>
           if i == k.ioCore then s.cores[i] else Woken(s.cores[i])),
         accepted := s.accepted[inv.info.transactionId := inv])
    case Poke(c) =>
      var core := Consumed(s.cores[c]);
      if Dispatches(k, s, c) && s.queue.order[0] in s.queue.table then
        var t := s.queue.order[0];
        s.(queue := WorkQueue.Take(s.queue), cores := s.cores[c := Started(core, t, s.queue.table[t])])
      else
        s.(cores := s.cores[c := core])
    case Finish(c, t) =>
      s.(cores := s.cores[c := Woken(Returned(s.cores[c], t))],
         finished := s.finished[t := s.cores[c].frames[t]])
  }

  ghost predicate IsRun(k: Config, s: State, es: seq<Event>)
    decreases |es|
  {
    es == [] || (Enabled(k, s, es[0]) && IsRun(k, Step(k, s, es[0]), es[1..]))
  }

  ghost function After(k: Config, s: State, es: seq<Event>): State
    requires IsRun(k, s, es)
    decreases |es|
  {
    if es == [] then s else After(k, Step(k, s, es[0]), es[1..])
  }

  lemma Prepend(k: Config, s: State, e: Event, rest: seq<Event>) returns (es: seq<Event>)
    requires Enabled(k, s, e) && IsRun(k, Step(k, s, e), rest)
    ensures es == [e] + rest && IsRun(k, s, es) && After(k, s, es) == After(k, Step(k, s, e), rest)
  {
    es := [e] + rest;
    assert es[1..] == rest;
  }

  // ---- Conservation of work ----

  predicate InFrames(s: State, t: Tid, c: nat) {
    c < |s.cores| && t in s.cores[c].frames
  }

  ghost predicate Active(s: State, t: Tid) {
    exists c: nat :: InFrames(s, t, c)
  }

  /** Every accepted request is in exactly one place: queued, live on exactly one core, or
      finished; and it is there with the Invocation that was accepted. */
  ghost predicate Conserved(s: State) {
    && (forall t :: t in s.accepted <==> t in s.queue.table || t in s.finished || Active(s, t))
    && (forall t | t in s.queue.table ::
          t !in s.finished && !Active(s, t) && s.queue.table[t] == s.accepted[t])
    && (forall t, c: nat | InFrames(s, t, c) ::
          t !in s.finished && s.cores[c].frames[t] == s.accepted[t])
    && (forall t, c: nat, d: nat | InFrames(s, t, c) && InFrames(s, t, d) :: c == d)
    && (forall t | t in s.finished :: t in s.accepted && s.finished[t] == s.accepted[t])
  }

  // ---- Counters and wakeups ----

  ghost predicate CounterOk(k: Config, core: Core) {
    && core.counter == |core.frames| % COUNTER_MODULUS
    && (k.limit < COUNTER_MODULUS ==> |core.frames| <= k.limit)
  }

  /** The wakeup invariant of a core: there is a pending Poke for every queued request, or the
      frames and the pending Pokes together already fill the core. */
  ghost predicate Awake(k: Config, queued: nat, core: Core) {
    || queued <= core.pokes
    || (k.limit < COUNTER_MODULUS && |core.frames| + core.pokes >= k.limit)
  }

  ghost predicate CoreOk(k: Config, s: State, c: nat)
    requires c < |s.cores|
  {
    && CounterOk(k, s.cores[c])
    && (c == k.ioCore ==> s.cores[c].pokes == 0 && s.cores[c].frames == map[])
    && (c != k.ioCore ==> Awake(k, |s.queue.order|, s.cores[c]))
  }

  ghost predicate Inv(k: Config, s: State) {
    && |s.cores| == k.cores
    && WorkQueue.Valid(s.queue)
    && Conserved(s)
    && (forall c: nat | c < k.cores :: CoreOk(k, s, c))
  }

  lemma InitInv(k: Config)
    requires ValidConfig(k)
    ensures Inv(k, Init(k))
  {
  }

  lemma StartedOk(k: Config, queued: nat, core: Core, t: Tid, inv: Invocation)
    requires CounterOk(k, core) && Awake(k, queued + 1, core)
    requires core.pokes > 0 && core.counter < k.limit && t !in core.frames
    ensures CounterOk(k, Started(Consumed(core), t, inv))
    ensures Awake(k, queued, Started(Consumed(core), t, inv))
  {
    assert |core.frames[t := inv]| == |core.frames| + 1;
  }

  lemma ReturnedOk(k: Config, queued: nat, core: Core, t: Tid)
    requires CounterOk(k, core) && t in core.frames
    ensures CounterOk(k, Woken(Returned(core, t)))
    ensures Awake(k, queued, core) ==> Awake(k, queued, Woken(Returned(core, t)))
  {
    Sums.RemoveShrinks(core.frames, t);
  }

  lemma AddWorkConserves(k: Config, s: State, inv: Invocation)
    requires WorkQueue.Valid(s.queue) && Conserved(s) && Enabled(k, s, AddWork(inv))
    ensures Conserved(Step(k, s, AddWork(inv)))
  {
    var s' := Step(k, s, AddWork(inv));
    assert forall t, c: nat :: InFrames(s', t, c) <==> InFrames(s, t, c);
    assert forall t :: Active(s', t) <==> Active(s, t);
  }

  lemma PokeMoves(k: Config, s: State, d: nat)
    requires Enabled(k, s, Poke(d)) && (Dispatches(k, s, d) ==> s.queue.order[0] in s.queue.table)
    ensures var s' := Step(k, s, Poke(d));
      && s'.accepted == s.accepted && s'.finished == s.finished
      && (forall t, c: nat :: InFrames(s', t, c) <==>
            InFrames(s, t, c) || (Dispatches(k, s, d) && t == s.queue.order[0] && c == d))
      && s'.queue == (if Dispatches(k, s, d) then WorkQueue.Take(s.queue) else s.queue)
      && (forall t, c: nat | InFrames(s', t, c) ::
            s'.cores[c].frames[t] == if Dispatches(k, s, d) && t == s.queue.order[0] && c == d
                                     then s.queue.table[t] else s.cores[c].frames[t])
  {
  }

  lemma PokeConserves(k: Config, s: State, d: nat)
    requires WorkQueue.Valid(s.queue) && Conserved(s) && Enabled(k, s, Poke(d))
    ensures Conserved(Step(k, s, Poke(d)))
  {
    hide Step, WorkQueue.Valid, InFrames;
    var s' := Step(k, s, Poke(d));
    if Dispatches(k, s, d) {
      WorkQueue.TakeServesOldest(s.queue);
      PokeMoves(k, s, d);
      assert InFrames(s', s.queue.order[0], d);
      assert forall t :: Active(s', t) <==> Active(s, t) || t == s.queue.order[0];
    } else {
      PokeMoves(k, s, d);
      assert forall t :: Active(s', t) <==> Active(s, t);
    }
  }

  lemma FinishConserves(k: Config, s: State, d: nat, t0: Tid)
    requires Conserved(s) && Enabled(k, s, Finish(d, t0))
    ensures Conserved(Step(k, s, Finish(d, t0)))
  {
    var s' := Step(k, s, Finish(d, t0));
    assert InFrames(s, t0, d);
    forall t, c: nat ensures InFrames(s', t, c) <==> InFrames(s, t, c) && t != t0 {
      assert InFrames(s, t, c) && t == t0 ==> c == d;
    }
    assert forall t :: Active(s', t) <==> Active(s, t) && t != t0;
  }

  lemma AddWorkKeeps(k: Config, s: State, inv: Invocation)
    requires ValidConfig(k) && Inv(k, s) && Enabled(k, s, AddWork(inv))
    ensures Inv(k, Step(k, s, AddWork(inv)))
  {
    var s' := Step(k, s, AddWork(inv));
    WorkQueue.AddAppends(s.queue, inv);
    AddWorkConserves(k, s, inv);
    assert forall c: nat | c < k.cores :: CoreOk(k, s, c) ==> CoreOk(k, s', c);
  }

  lemma OtherCores(k: Config, s: State, s': State, d: nat)
    requires |s'.cores| == |s.cores| == k.cores && |s'.queue.order| <= |s.queue.order|
    requires forall c: nat | c < k.cores && c != d :: s'.cores[c] == s.cores[c]
    requires forall c: nat | c < k.cores :: CoreOk(k, s, c)
    ensures forall c: nat | c < k.cores && c != d :: CoreOk(k, s', c)
  {
    assert forall c: nat | c < k.cores && c != d :: CoreOk(k, s, c) ==> CoreOk(k, s', c);
  }

  /** A queued request has no frame yet. */
  lemma FrontIsNew(s: State, d: nat)
    requires WorkQueue.Valid(s.queue) && Conserved(s) && s.queue.order != []
    ensures s.queue.order[0] in s.queue.table && !InFrames(s, s.queue.order[0], d)
  {
    WorkQueue.TakeServesOldest(s.queue);
    assert !Active(s, s.queue.order[0]);
  }

  lemma PokeKeeps(k: Config, s: State, d: nat)
    requires ValidConfig(k) && Inv(k, s) && Enabled(k, s, Poke(d))
    ensures Inv(k, Step(k, s, Poke(d)))
  {
    var s' := Step(k, s, Poke(d));
    PokeConserves(k, s, d);
    assert CoreOk(k, s, d);
    if Dispatches(k, s, d) {
      WorkQueue.TakeServesOldest(s.queue);
      FrontIsNew(s, d);
      StartedOk(k, |s'.queue.order|, s.cores[d], s.queue.order[0], s.queue.table[s.queue.order[0]]);
    }
    assert CoreOk(k, s', d);
    OtherCores(k, s, s', d);
  }

  lemma FinishKeeps(k: Config, s: State, d: nat, t: Tid)
    requires ValidConfig(k) && Inv(k, s) && Enabled(k, s, Finish(d, t))
    ensures Inv(k, Step(k, s, Finish(d, t)))
  {
    var s' := Step(k, s, Finish(d, t));
    FinishConserves(k, s, d, t);
    assert CoreOk(k, s, d);
    ReturnedOk(k, |s.queue.order|, s.cores[d], t);
    assert CoreOk(k, s', d);
    OtherCores(k, s, s', d);
  }

  lemma StepInv(k: Config, s: State, e: Event)
    requires ValidConfig(k) && Inv(k, s) && Enabled(k, s, e)
    ensures Inv(k, Step(k, s, e))
  {
    match e
    case AddWork(inv) => AddWorkKeeps(k, s, inv);
    case Poke(d) => PokeKeeps(k, s, d);
    case Finish(d, t) => FinishKeeps(k, s, d, t);
  }

  /** The queue is first come, first served: arrivals go to the end, and the one invocation a Poke
      may start is the oldest waiting. */
  lemma ServedInOrder(k: Config, s: State, e: Event)
    requires ValidConfig(k) && Inv(k, s) && Enabled(k, s, e)
    ensures var s' := Step(k, s, e);
      && WorkQueue.Valid(s'.queue)
      && (e.AddWork? ==> WorkQueue.Contents(s'.queue) == WorkQueue.Contents(s.queue) + [e.inv])
      && (e.Finish? ==> s'.queue == s.queue)
      && (e.Poke? && Dispatches(k, s, e.core) ==>
            && WorkQueue.Contents(s'.queue) == WorkQueue.Contents(s.queue)[1..]
            && s.queue.order[0] in s'.cores[e.core].frames
            && s'.cores[e.core].frames[s.queue.order[0]] == WorkQueue.Contents(s.queue)[0])
      && (e.Poke? && !Dispatches(k, s, e.core) ==>
            s'.queue == s.queue && s'.cores[e.core].frames == s.cores[e.core].frames)
  {
    if e.AddWork? {
      WorkQueue.AddAppends(s.queue, e.inv);
    } else if s.queue.order != [] {
      WorkQueue.TakeServesOldest(s.queue);
    }
  }

  /** Every reachable state satisfies the invariant: work is conserved, every core's counter is
      right, and no core that could serve a queued request is left without a Poke. */
  lemma {:induction false} RunInv(k: Config, s: State, es: seq<Event>)
    requires ValidConfig(k) && Inv(k, s) && IsRun(k, s, es)
    ensures Inv(k, After(k, s, es))
    decreases |es|
  {
    if es != [] {
      StepInv(k, s, es[0]);
      RunInv(k, Step(k, s, es[0]), es[1..]);
    }
  }

  // ---- First come, first served ----

  function AddedBy(e: Event): seq<Invocation> {
    if e.AddWork? then [e.inv] else []
  }

  /** What the event hands to a core, as a new frame. */
  function StartedBy(k: Config, s: State, e: Event): seq<Invocation>
    requires Enabled(k, s, e)
  {
    if e.Poke? && Dispatches(k, s, e.core) && s.queue.order[0] in s.queue.table
    then [s.queue.table[s.queue.order[0]]] else []
  }

  ghost function AddedIn(es: seq<Event>): seq<Invocation> {
    if es == [] then [] else AddedBy(es[0]) + AddedIn(es[1..])
  }

  ghost function StartedIn(k: Config, s: State, es: seq<Event>): seq<Invocation>
    requires IsRun(k, s, es)
    decreases |es|
  {
    if es == [] then [] else StartedBy(k, s, es[0]) + StartedIn(k, Step(k, s, es[0]), es[1..])
  }

  lemma StepIsFifo(k: Config, s: State, e: Event)
    requires ValidConfig(k) && Inv(k, s) && Enabled(k, s, e)
    ensures WorkQueue.Valid(Step(k, s, e).queue)
    ensures WorkQueue.Contents(s.queue) + AddedBy(e) ==
      StartedBy(k, s, e) + WorkQueue.Contents(Step(k, s, e).queue)
  {
    hide Step, Conserved, WorkQueue.Valid, WorkQueue.Contents, CoreOk;
    ServedInOrder(k, s, e);
    if e.Poke? && Dispatches(k, s, e.core) {
      WorkQueue.TakeServesOldest(s.queue);
    }
  }

  lemma {:induction false} RunIsFifo(k: Config, s: State, es: seq<Event>)
    requires ValidConfig(k) && Inv(k, s) && IsRun(k, s, es)
    ensures WorkQueue.Valid(After(k, s, es).queue)
    ensures WorkQueue.Contents(s.queue) + AddedIn(es) ==
      StartedIn(k, s, es) + WorkQueue.Contents(After(k, s, es).queue)
    decreases |es|
  {
    hide Step, Enabled, Inv, StartedBy, AddedBy;
    QueueIsValid(k, s);
    if es != [] {
      var s' := Step(k, s, es[0]);
      StepIsFifo(k, s, es[0]);
      StepInv(k, s, es[0]);
      RunIsFifo(k, s', es[1..]);
      calc {
        WorkQueue.Contents(s.queue) + (AddedBy(es[0]) + AddedIn(es[1..]));
        (WorkQueue.Contents(s.queue) + AddedBy(es[0])) + AddedIn(es[1..]);
        (StartedBy(k, s, es[0]) + WorkQueue.Contents(s'.queue)) + AddedIn(es[1..]);
        StartedBy(k, s, es[0]) + (WorkQueue.Contents(s'.queue) + AddedIn(es[1..]));
      }
    }
  }

  lemma QueueIsValid(k: Config, s: State)
    requires Inv(k, s)
    ensures WorkQueue.Valid(s.queue)
  {
  }

  /** Over every run the invocations are started in the order in which they were added: what was
      added is what was started, in this order, followed by what is queued. */
  lemma StartedInOrderAdded(k: Config, es: seq<Event>)
    requires ValidConfig(k) && IsRun(k, Init(k), es)
    ensures WorkQueue.Valid(After(k, Init(k), es).queue)
    ensures AddedIn(es) == StartedIn(k, Init(k), es) + WorkQueue.Contents(After(k, Init(k), es).queue)
    ensures StartedIn(k, Init(k), es) <= AddedIn(es)
  {
    hide Step, Enabled, Inv;
    InitInv(k);
    RunIsFifo(k, Init(k), es);
    assert WorkQueue.Contents(Init(k).queue) + AddedIn(es) == AddedIn(es);
  }

  /** No lost wakeup: on every core that may run invocations, queued work is covered by pending
      Pokes unless the core's frames and Pokes already reach its limit. So a core with room never
      sleeps while a request waits. */
  lemma NoLostWakeup(k: Config, es: seq<Event>, c: nat)
    requires ValidConfig(k) && IsRun(k, Init(k), es) && c < k.cores && c != k.ioCore
    ensures var s := After(k, Init(k), es);
      && |s.cores| == k.cores
      && (|s.queue.order| <= s.cores[c].pokes || |s.cores[c].frames| + s.cores[c].pokes >= k.limit)
      && (s.queue.order != [] && |s.cores[c].frames| < k.limit ==> s.cores[c].pokes > 0)
  {
    InitInv(k);
    RunInv(k, Init(k), es);
    assert CoreOk(k, After(k, Init(k), es), c);
  }

  lemma IoCoreNeverRuns(k: Config, es: seq<Event>)
    requires ValidConfig(k) && IsRun(k, Init(k), es)
    ensures var s := After(k, Init(k), es);
      |s.cores| == k.cores && s.cores[k.ioCore] == Core(0, 0, map[])
  {
    InitInv(k);
    RunInv(k, Init(k), es);
    assert CoreOk(k, After(k, Init(k), es), k.ioCore);
  }

  lemma WorkIsConserved(k: Config, es: seq<Event>)
    requires ValidConfig(k) && IsRun(k, Init(k), es)
    ensures Conserved(After(k, Init(k), es))
    ensures WorkQueue.Valid(After(k, Init(k), es).queue)
  {
    InitInv(k);
    RunInv(k, Init(k), es);
  }

  // ---- Draining ----

  /** No event other than a new arrival can happen. */
  ghost predicate Quiescent(s: State) {
    forall c: nat | c < |s.cores| :: s.cores[c].pokes == 0 && s.cores[c].frames == map[]
  }

  /** Whenever the node comes to rest, it has served everything it accepted. */
  ghost predicate AlwaysDrains(k: Config) {
    forall es | IsRun(k, Init(k), es) && Quiescent(After(k, Init(k), es)) ::
      var s := After(k, Init(k), es);
      s.queue.order == [] && s.finished == s.accepted
  }

  lemma QuiescentIsDrained(k: Config, s: State)
    requires ValidConfig(k) && Inv(k, s) && Quiescent(s) && k.limit >= 1 && k.cores >= 2
    ensures s.queue.order == [] && s.finished == s.accepted
  {
    var c := if k.ioCore == 0 then 1 else 0;
    assert CoreOk(k, s, c);
    assert s.queue.order == [];
    assert forall t :: !Active(s, t);
  }

  /** With a limit of zero every Poke is discarded: the node comes to rest, its queue untouched. */
  lemma {:induction false} DiscardAll(k: Config, s: State, c: nat) returns (es: seq<Event>)
    requires k.limit == 0 && c <= |s.cores|
    requires forall d: nat | d < |s.cores| :: s.cores[d].frames == map[]
    requires forall d: nat | d < c :: s.cores[d].pokes == 0
    ensures IsRun(k, s, es) && Quiescent(After(k, s, es))
    ensures After(k, s, es).queue == s.queue
    decreases |s.cores| - c, if c < |s.cores| then s.cores[c].pokes else 0
  {
    if c == |s.cores| {
      es := [];
    } else if s.cores[c].pokes == 0 {
      es := DiscardAll(k, s, c + 1);
    } else {
      var rest := DiscardAll(k, Step(k, s, Poke(c)), c);
      es := Prepend(k, s, Poke(c), rest);
    }
  }

  function Request(t: Tid): Invocation {
    Invocation(InvocationStats(t, 1, 1, "", ExecStats(0, 0, false)), "c", "a")
  }

  lemma StrandsOne(k: Config) returns (es: seq<Event>)
    requires ValidConfig(k) && (k.limit == 0 || k.cores == 1)
    ensures IsRun(k, Init(k), es) && Quiescent(After(k, Init(k), es))
    ensures After(k, Init(k), es).queue.order != []
  {
    var e := AddWork(Request(0));
    var s := Step(k, Init(k), e);
    var rest := [];
    if k.limit == 0 {
      rest := DiscardAll(k, s, 0);
    }
    es := Prepend(k, Init(k), e, rest);
  }

  /** The exact condition for the node to serve everything: a positive limit and a second core. */
  lemma DrainsExactlyWhen(k: Config)
    requires ValidConfig(k)
    ensures AlwaysDrains(k) <==> k.limit >= 1 && k.cores >= 2
  {
    if k.limit >= 1 && k.cores >= 2 {
      forall es | IsRun(k, Init(k), es) && Quiescent(After(k, Init(k), es))
        ensures var s := After(k, Init(k), es); s.queue.order == [] && s.finished == s.accepted
      {
        InitInv(k);
        RunInv(k, Init(k), es);
        QuiescentIsDrained(k, After(k, Init(k), es));
      }
    } else {
      var es := StrandsOne(k);
    }
  }

  // ---- Termination ----

  ghost function CoreWork(core: Core): nat {
    2 * |core.frames| + core.pokes
  }

  ghost function CoreWorks(cores: seq<Core>): seq<nat> {
    seq(|cores|, i requires 0 <= i < |cores| => CoreWork(cores[i]))
  }

  /** What is left to do: a queued request is worth a dispatch, a return and a Poke. */
  ghost function Work(s: State): nat {
    3 * |s.queue.order| + Sums.SumSeq(CoreWorks(s.cores))
  }

  lemma WorkAfterAdd(k: Config, s: State, inv: Invocation)
    requires |s.cores| == k.cores && Enabled(k, s, AddWork(inv))
    ensures Work(Step(k, s, AddWork(inv))) <= Work(s) + 3 + k.cores
  {
    Sums.SumSeqGrowth(CoreWorks(s.cores), CoreWorks(Step(k, s, AddWork(inv)).cores));
  }

  lemma WorkAfterCore(cores: seq<Core>, c: nat, core: Core)
    requires c < |cores|
    ensures Sums.SumSeq(CoreWorks(cores[c := core])) ==
      Sums.SumSeq(CoreWorks(cores)) - CoreWork(cores[c]) + CoreWork(core)
  {
    Sums.SumSeqUpdate(CoreWorks(cores), c, CoreWork(core));
    assert CoreWorks(cores[c := core]) == CoreWorks(cores)[c := CoreWork(core)];
  }

  lemma WorkAfterPoke(k: Config, s: State, c: nat)
    requires Enabled(k, s, Poke(c))
    requires Dispatches(k, s, c) ==> s.queue.order[0] in s.queue.table && s.queue.order[0] !in s.cores[c].frames
    ensures Work(Step(k, s, Poke(c))) <= Work(s) - (if Dispatches(k, s, c) then 2 else 1)
  {
    var s' := Step(k, s, Poke(c));
    WorkAfterCore(s.cores, c, s'.cores[c]);
    if Dispatches(k, s, c) {
      assert |s'.cores[c].frames| == |s.cores[c].frames| + 1;
    }
  }

  lemma WorkAfterFinish(k: Config, s: State, c: nat, t: Tid)
    requires Enabled(k, s, Finish(c, t))
    ensures Work(Step(k, s, Finish(c, t))) < Work(s)
  {
    Sums.RemoveShrinks(s.cores[c].frames, t);
    WorkAfterCore(s.cores, c, Step(k, s, Finish(c, t)).cores[c]);
  }

  lemma WorkAfter(k: Config, s: State, e: Event)
    requires ValidConfig(k) && Inv(k, s) && Enabled(k, s, e)
    ensures e.AddWork? ==> Work(Step(k, s, e)) <= Work(s) + 3 + k.cores
    ensures e.Finish? ==> Work(Step(k, s, e)) < Work(s)
    ensures e.Poke? ==>
      Work(Step(k, s, e)) <= Work(s) - (if Dispatches(k, s, e.core) then 2 else 1)
  {
    hide Step, Work, Conserved, WorkQueue.Valid;
    match e
    case AddWork(inv) => WorkAfterAdd(k, s, inv);
    case Finish(c, t) => WorkAfterFinish(k, s, c, t);
    case Poke(c) =>
      if Dispatches(k, s, c) {
        FrontIsNew(s, c);
      }
      WorkAfterPoke(k, s, c);
  }

  /** Without new arrivals every run is finite: its length is bounded by the work left. */
  lemma {:induction false} RunsAreBounded(k: Config, s: State, es: seq<Event>)
    requires ValidConfig(k) && Inv(k, s) && IsRun(k, s, es)
    requires forall i | 0 <= i < |es| :: !es[i].AddWork?
    ensures |es| <= Work(s)
    decreases |es|
  {
    if es != [] {
      WorkAfter(k, s, es[0]);
      StepInv(k, s, es[0]);
      RunsAreBounded(k, Step(k, s, es[0]), es[1..]);
    }
  }

  // ---- The narrow counter ----

  ghost predicate CounterIsExact(k: Config) {
    forall es, c: nat | IsRun(k, Init(k), es) && c < |After(k, Init(k), es).cores| ::
      var core := After(k, Init(k), es).cores[c];
      core.counter == |core.frames| && |core.frames| <= k.limit
  }

  /** A core with a Poke for each of `n` queued requests, that runs `m` already. */
  ghost predicate Loaded(k: Config, s: State, c: nat, m: nat, n: nat) {
    && c < |s.cores|
    && |s.queue.order| == n && s.cores[c].pokes == n && |s.cores[c].frames| == m
  }

  lemma QueueOne(k: Config, s: State, c: nat, t: Tid)
    requires ValidConfig(k) && Inv(k, s) && c != k.ioCore && t !in s.accepted
    requires exists n: nat :: Loaded(k, s, c, 0, n)
    ensures Enabled(k, s, AddWork(Request(t)))
    ensures forall n: nat | Loaded(k, s, c, 0, n) :: Loaded(k, Step(k, s, AddWork(Request(t))), c, 0, n + 1)
    ensures Step(k, s, AddWork(Request(t))).accepted.Keys == s.accepted.Keys + {t}
    ensures Inv(k, Step(k, s, AddWork(Request(t))))
  {
    StepInv(k, s, AddWork(Request(t)));
  }

  lemma FillFrame(k: Config, s: State, c: nat, m: nat, n: nat)
    requires Loaded(k, s, c, m, n + 1) && Dispatches(k, s, c)
    requires s.queue.order[0] in s.queue.table && s.queue.order[0] !in s.cores[c].frames
    ensures Enabled(k, s, Poke(c)) && Loaded(k, Step(k, s, Poke(c)), c, m + 1, n)
  {
  }

  lemma HasRoom(k: Config, s: State, c: nat)
    requires Inv(k, s) && k.limit >= COUNTER_MODULUS && c < |s.cores|
    ensures s.cores[c].counter < k.limit
  {
    assert CoreOk(k, s, c);
  }

  lemma FillOne(k: Config, s: State, c: nat, m: nat, n: nat)
    requires ValidConfig(k) && Inv(k, s) && k.limit >= COUNTER_MODULUS && Loaded(k, s, c, m, n + 1)
    ensures Enabled(k, s, Poke(c)) && Loaded(k, Step(k, s, Poke(c)), c, m + 1, n)
    ensures Inv(k, Step(k, s, Poke(c)))
  {
    hide Step, Conserved, WorkQueue.Valid;
    HasRoom(k, s, c);
    FrontIsNew(s, c);
    FillFrame(k, s, c, m, n);
    StepInv(k, s, Poke(c));
  }

  lemma {:induction false} FillCore(k: Config, s: State, c: nat, m: nat, n: nat) returns (es: seq<Event>)
    requires ValidConfig(k) && Inv(k, s) && k.limit >= COUNTER_MODULUS && Loaded(k, s, c, m, n)
    ensures IsRun(k, s, es) && Loaded(k, After(k, s, es), c, m + n, 0)
    decreases n
  {
    if n == 0 {
      es := [];
    } else {
      FillOne(k, s, c, m, n - 1);
      var rest := FillCore(k, Step(k, s, Poke(c)), c, m + 1, n - 1);
      es := Prepend(k, s, Poke(c), rest);
    }
  }

  lemma {:induction false} QueueMany(k: Config, s: State, c: nat, t: Tid, n: nat) returns (es: seq<Event>)
    requires ValidConfig(k) && Inv(k, s) && k.limit >= COUNTER_MODULUS && c != k.ioCore
    requires Loaded(k, s, c, 0, t) && forall u | u in s.accepted :: u < t
    ensures IsRun(k, s, es) && Loaded(k, After(k, s, es), c, t + n, 0)
    decreases n
  {
    if n == 0 {
      es := FillCore(k, s, c, 0, t);
    } else {
      QueueOne(k, s, c, t);
      var rest := QueueMany(k, Step(k, s, AddWork(Request(t))), c, t + 1, n - 1);
      es := Prepend(k, s, AddWork(Request(t)), rest);
    }
  }

  /** The 8-bit counter equals the number of live frames in every run, and the frames never exceed
      the limit, exactly when the limit fits the counter (or no core ever runs anything). */
  lemma CounterIsExactWhen(k: Config)
    requires ValidConfig(k)
    ensures CounterIsExact(k) <==> k.limit < COUNTER_MODULUS || k.cores == 1
  {
    InitInv(k);
    if k.limit < COUNTER_MODULUS || k.cores == 1 {
      forall es, c: nat | IsRun(k, Init(k), es) && c < |After(k, Init(k), es).cores|
        ensures var core := After(k, Init(k), es).cores[c];
          core.counter == |core.frames| && |core.frames| <= k.limit
      {
        RunInv(k, Init(k), es);
        assert CoreOk(k, After(k, Init(k), es), c);
      }
    } else {
      var c := if k.ioCore == 0 then 1 else 0;
      var es := QueueMany(k, Init(k), c, 0, COUNTER_MODULUS);
      RunInv(k, Init(k), es);
      assert CoreOk(k, After(k, Init(k), es), c);
    }
  }
}
