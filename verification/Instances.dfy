/** Who owns an instance. Instances are started cold (from the base snapshot), warm (from a cached
    snapshot of the function) or hot (an idle instance is resumed); when their session ends they
    are kept idle for reuse or told to halt. The machine covers all cores of a node, the hot
    caches, the snapshot cache and the pending snapshot captures.

    `insts`, `place`, `served` and `image` are history: the function and core of every instance ever
    created, where it is now, which functions it was asked to run, and the snapshot it was booted
    from, unless that was the base snapshot. */
module Instances {
  import opened Seuss
  import HotCache
  import Snapshots
  import Sums

  datatype Kind = Hot | Warm | Cold

  datatype Config = Config(cores: nat, limits: HotCache.Limits)

  /** `fn` is the function whose code the instance has loaded. */
  datatype Instance = Instance(fn: Fid, core: nat)

  datatype Run = Run(core: nat, fid: Fid, id: Id, kind: Kind)

  datatype Place = InSession(tid: Tid) | Stalled | HaltSignalled

  datatype State = State(
    hot: seq<HotCache.Tracked>,
    store: Snapshots.Store,
    checkpoints: map<Id, Fid>,
    live: set<Id>,
    running: map<Tid, Run>,
    halts: multiset<Id>,
    insts: map<Id, Instance>,
    place: map<Id, Place>,
    served: set<(Id, Fid)>,
    image: map<Id, Snap>)

  datatype Event =
    /** An attempt to run `tid` on `core`, from hot, warm or cold on; `id` is the id a new instance
        would get. */
    | Start(tid: Tid, core: nat, fid: Fid, from: Kind, id: Id)
    /** The session of `tid` finished: closed (ok) or aborted. */
    | End(tid: Tid, ok: bool)
    /** The checkpoint set on instance `id` was hit and produced snapshot `sv`. */
    | Capture(id: Id, sv: Snap)
    /** The event that carries SignalHalt runs. */
    | RunHalt(id: Id)

  ghost predicate ValidConfig(k: Config) {
    HotCache.ValidLimits(k.limits)
  }

  function Init(k: Config): State {
    State(seq(k.cores, _ => HotCache.FRESH), Snapshots.EMPTY, map[], {}, map[], multiset{}, map[], map[], {}, map[])
  }

  /** New instance ids are fresh and not null, function ids are not null, captures are fresh. */
  predicate Enabled(k: Config, s: State, e: Event) {
    match e
    case Start(t, core, fid, from, id) =>
      t !in s.running && core < |s.hot| && fid != 0 && id != 0 && id !in s.insts
    case End(t, ok) => t in s.running && s.running[t].core < |s.hot|
    case Capture(id, sv) => id in s.checkpoints && id in s.insts && sv !in s.store.origin
    case RunHalt(id) => id in s.halts && id in s.live
  }

  /** The assertions of `save_hot_instance`: the ids are not null, and the UM manager still knows an
      instance that is saved. */
  predicate AssertionsPass(k: Config, s: State, e: Event)
    requires Enabled(k, s, e)
  {
    e.End? && e.ok ==>
      var run := s.running[e.tid];
      && run.fid != 0 && run.id != 0
      && (HotCache.CanBeSaved(k.limits, s.hot[run.core].cache, run.fid, run.id) ==> run.id in s.live)
  }

  predicate HasHot(k: Config, s: State, core: nat, fid: Fid)
    requires core < |s.hot|
  {
    k.limits.limit > 0 && fid in s.hot[core].cache.stalled
  }

  /** The start that an attempt ends up with. A hot entry whose instance the UM manager no longer
      knows is dropped and the attempt goes on warm. */
  function Resolve(k: Config, s: State, core: nat, fid: Fid, from: Kind): Kind
    requires core < |s.hot|
  {
    if from.Hot? && HasHot(k, s, core, fid) &&
       s.hot[core].cache.stalled[fid] != 0 && s.hot[core].cache.stalled[fid] in s.live then Hot
    else if !from.Cold? && fid in s.store.cache then Warm
    else Cold
  }

  /** The hot caches after a look for an idle instance of `fid`: a hit is unlisted. */
  function Unlist(k: Config, s: State, core: nat, fid: Fid): seq<HotCache.Tracked>
    requires core < |s.hot|
  {
    if HasHot(k, s, core, fid)
    then s.hot[core := HotCache.Step(k.limits, s.hot[core], HotCache.Take(fid))]
    else s.hot
  }

  /** A warm instance has the code its snapshot was captured with, a cold one is initialised with
      the code of the invocation. */
  function LoadedFunction(s: State, fid: Fid, kind: Kind): Fid {
    if kind.Warm? && fid in s.store.cache && s.store.cache[fid] in s.store.origin
    then s.store.origin[s.store.cache[fid]] else fid
  }

  function StartStep(k: Config, s: State, t: Tid, core: nat, fid: Fid, from: Kind, id: Id): State
    requires core < |s.hot|
  {
    var kind := Resolve(k, s, core, fid, from);
    var used := if kind.Hot? then s.hot[core].cache.stalled[fid] else id;
    State(
      if from.Hot? then Unlist(k, s, core, fid) else s.hot,
      s.store,
      if kind.Cold? && !Snapshots.Full(s.store.cache) then s.checkpoints[id := fid] else s.checkpoints,
      if kind.Hot? then s.live else s.live + {id},
      s.running[t := Run(core, fid, used, kind)],
      s.halts,
      if kind.Hot? then s.insts else s.insts[id := Instance(LoadedFunction(s, fid, kind), core)],
      s.place[used := InSession(t)],
      s.served + {(used, fid)},
      if kind.Warm? && fid in s.store.cache then s.image[id := s.store.cache[fid]] else s.image)
  }

  function Signal(s: State, id: Id): State {
    s.(halts := s.halts + multiset{id}, place := s.place[id := HaltSignalled])
  }

  function Step(k: Config, s: State, e: Event): State
    requires Enabled(k, s, e)
  {
    match e
    case Start(t, core, fid, from, id) =>
      StartStep(k, s, t, core, fid, from, id)
    case End(t, ok) =>
      var run := s.running[t];
      var s1 := s.(running := s.running - {t});
      if ok && HotCache.CanBeSaved(k.limits, s.hot[run.core].cache, run.fid, run.id) then
        s1.(hot := s.hot[run.core := HotCache.Step(k.limits, s.hot[run.core], HotCache.Save(run.fid, run.id))],
            place := s.place[run.id := Stalled])
      else Signal(s1, run.id)
    case Capture(id, sv) =>
      s.(store := Snapshots.Offer(s.store, s.checkpoints[id], sv, s.insts[id].fn),
         checkpoints := s.checkpoints - {id})
    case RunHalt(id) =>
      s.(live := s.live - {id})
  }

  lemma StartRunning(k: Config, s: State, t: Tid, core: nat, fid: Fid, from: Kind, id: Id)
    requires Enabled(k, s, Start(t, core, fid, from, id))
    ensures var s' := Step(k, s, Start(t, core, fid, from, id));
      && t in s'.running
      && s'.running == s.running[t := s'.running[t]]
      && s'.running[t].core == core && s'.running[t].fid == fid
      && s'.running[t].kind == Resolve(k, s, core, fid, from)
  {
  }

  lemma EndRunning(k: Config, s: State, t: Tid, ok: bool)
    requires Enabled(k, s, End(t, ok))
    ensures var s' := Step(k, s, End(t, ok));
      s'.running == s.running - {t} && s'.live == s.live && s'.checkpoints == s.checkpoints
  {
    hide HotCache.Step, HotCache.CanBeSaved;
  }

  lemma OtherRunning(k: Config, s: State, e: Event)
    requires Enabled(k, s, e) && !e.Start?
    ensures Step(k, s, e).running == if e.End? then s.running - {e.tid} else s.running
    ensures e.End? ==> Step(k, s, e).live == s.live && Step(k, s, e).checkpoints == s.checkpoints
  {
    hide HotCache.Step, HotCache.CanBeSaved, Snapshots.Offer, StartStep;
    if e.End? {
      EndRunning(k, s, e.tid, e.ok);
    }
  }

  // ---- The invariant ----

  /** Instance `id` is idle in the cache of `core`, listed for function `fid`. */
  predicate IdleAt(s: State, core: nat, fid: Fid, id: Id) {
    core < |s.hot| && fid in s.hot[core].cache.stalled && s.hot[core].cache.stalled[fid] == id
  }

  predicate IsAt(s: State, id: Id, place: Place, inst: Instance) {
    id in s.place && id in s.insts && s.place[id] == place && s.insts[id] == inst
  }

  ghost predicate Known(s: State) {
    && s.place.Keys == s.insts.Keys
    && 0 !in s.insts
    && (forall id | id in s.insts :: s.insts[id].core < |s.hot|)
    && (forall id | id in s.insts && s.halts[id] == 0 :: id in s.live)
    && s.live <= s.insts.Keys
  }

  /** A running session owns its instance, and the instance was started for its function. */
  ghost predicate SessionsOwn(s: State) {
    && (forall t | t in s.running ::
          && s.running[t].fid != 0
          && IsAt(s, s.running[t].id, InSession(t), Instance(s.running[t].fid, s.running[t].core)))
    && (forall id | id in s.place && s.place[id].InSession? ::
          s.place[id].tid in s.running && s.running[s.place[id].tid].id == id)
  }

  /** An idle instance is listed once, for the function it was started for, on its own core. */
  ghost predicate CachesOwn(s: State) {
    && (forall core: nat, fid, id | IdleAt(s, core, fid, id) ::
          fid != 0 && IsAt(s, id, Stalled, Instance(fid, core)))
    && (forall id | id in s.place && id in s.insts && s.place[id].Stalled? ::
          IdleAt(s, s.insts[id].core, s.insts[id].fn, id))
  }

  ghost predicate HaltsOnce(s: State) {
    forall id :: s.halts[id] == if id in s.place && s.place[id].HaltSignalled? then 1 else 0
  }

  /** An instance was only ever asked to run the function it was started for. */
  ghost predicate Isolated(s: State) {
    && (forall p | p in s.served :: p.0 in s.insts && s.insts[p.0].fn == p.1)
    && (forall id | id in s.checkpoints :: id in s.insts && s.insts[id].fn == s.checkpoints[id])
  }

  ghost predicate CachesOk(k: Config, s: State) {
    && |s.hot| == k.cores
    && (forall c: nat | c < |s.hot| :: HotCache.Inv(k.limits, s.hot[c]))
    && Snapshots.Inv(s.store)
  }

  ghost predicate OwnersOk(s: State) {
    Known(s) && SessionsOwn(s) && CachesOwn(s) && HaltsOnce(s) && Isolated(s)
  }

  /** Only the core an instance was started on ever saves it. */
  ghost predicate CountsAtHome(s: State) {
    forall c: nat, id | c < |s.hot| && id in s.hot[c].saves :: id in s.insts && s.insts[id].core == c
  }

  ghost predicate Kept(k: Config, s: State) {
    CachesOk(k, s) && OwnersOk(s)
  }

  /** An instance was booted from a snapshot of its own function. */
  ghost predicate ImagesOwn(s: State) {
    forall id | id in s.image ::
      id in s.insts && s.image[id] in s.store.origin && s.store.origin[s.image[id]] == s.insts[id].fn
  }

  ghost predicate Inv(k: Config, s: State) {
    Kept(k, s) && CountsAtHome(s) && ImagesOwn(s)
  }

  // ---- Every step keeps it ----

  /** `kassert` and `kbugon` in `save_hot_instance`: the ids are not null, the instance is alive. */
  lemma SaveObligations(k: Config, s: State, t: Tid)
    requires Inv(k, s) && t in s.running
    ensures var run := s.running[t];
      && run.core < |s.hot| && run.id in s.live
      && HotCache.Enabled(k.limits, s.hot[run.core], HotCache.Save(run.fid, run.id))
  {
    var run := s.running[t];
    var c := s.hot[run.core].cache;
    forall f | f in c.stalled ensures c.stalled[f] != run.id {
      assert IdleAt(s, run.core, f, c.stalled[f]);
    }
  }

  lemma EndPasses(k: Config, s: State, t: Tid, ok: bool)
    requires Inv(k, s) && t in s.running
    ensures Enabled(k, s, End(t, ok)) && AssertionsPass(k, s, End(t, ok))
  {
    hide Inv, HotCache.CanBeSaved, HotCache.Idle;
    SaveObligations(k, s, t);
  }

  /** The abort in `get_hot_instance` and the lost-instance branch of `process_hot_start` are dead:
      a listed instance is not null and still known to the UM manager. */
  lemma HotEntryIsAlive(k: Config, s: State, core: nat, fid: Fid)
    requires Inv(k, s) && core < |s.hot| && fid in s.hot[core].cache.stalled
    ensures s.hot[core].cache.stalled[fid] != 0
    ensures s.hot[core].cache.stalled[fid] in s.live
  {
    assert IdleAt(s, core, fid, s.hot[core].cache.stalled[fid]);
  }

  /** What a start changes: the instance of `run`, idle or new, moves into the session of `t`. */
  ghost predicate Begins(s: State, s': State, t: Tid, run: Run) {
    && t !in s.running && run.fid != 0 && run.core < |s.hot| == |s'.hot|
    && (IsAt(s, run.id, Stalled, Instance(run.fid, run.core)) || run.id !in s.insts)
    && run.id != 0 && run.id in s'.live
    && s.live <= s'.live <= s'.insts.Keys
    && s'.halts == s.halts && s.halts[run.id] == 0
    && s'.insts == s.insts[run.id := Instance(run.fid, run.core)]
    && s'.running == s.running[t := run] && s'.place == s.place[run.id := InSession(t)]
    && s'.served == s.served + {(run.id, run.fid)}
    && (s'.checkpoints == s.checkpoints || s'.checkpoints == s.checkpoints[run.id := run.fid])
    && (forall c: nat, f, x :: IdleAt(s', c, f, x) <==> IdleAt(s, c, f, x) && x != run.id)
  }

  /** What an end changes: the instance of `t` leaves its session, kept idle or told to halt. */
  ghost predicate Ends(s: State, s': State, t: Tid, kept: bool) {
    && t in s.running && |s'.hot| == |s.hot| && s'.insts == s.insts && s'.live == s.live
    && IsAt(s, s.running[t].id, InSession(t), Instance(s.running[t].fid, s.running[t].core))
    && s.running[t].fid != 0 && s.halts[s.running[t].id] == 0
    && s'.served == s.served && s'.checkpoints == s.checkpoints
    && s'.running == s.running - {t}
    && s'.place == s.place[s.running[t].id := if kept then Stalled else HaltSignalled]
    && s'.halts == s.halts + (if kept then multiset{} else multiset{s.running[t].id})
    && (forall c: nat, f, x :: IdleAt(s', c, f, x) <==>
          IdleAt(s, c, f, x) || (kept && c == s.running[t].core && f == s.running[t].fid && x == s.running[t].id))
  }

  lemma BeginKnown(s: State, s': State, t: Tid, run: Run)
    requires Known(s) && Begins(s, s', t, run)
    ensures Known(s')
  {
  }

  lemma EndKnown(s: State, s': State, t: Tid, kept: bool)
    requires Known(s) && Ends(s, s', t, kept)
    ensures Known(s')
  {
  }

  lemma BeginSessionsOwn(s: State, s': State, t: Tid, run: Run)
    requires SessionsOwn(s) && Begins(s, s', t, run)
    ensures SessionsOwn(s')
  {
  }

  lemma EndSessionsOwn(s: State, s': State, t: Tid, kept: bool)
    requires SessionsOwn(s) && Ends(s, s', t, kept)
    ensures SessionsOwn(s')
  {
  }

  lemma BeginCachesOwn(s: State, s': State, t: Tid, run: Run)
    requires Known(s) && CachesOwn(s) && Begins(s, s', t, run)
    ensures CachesOwn(s')
  {
  }

  lemma EndCachesOwn(s: State, s': State, t: Tid, kept: bool)
    requires Known(s) && CachesOwn(s) && Ends(s, s', t, kept)
    ensures CachesOwn(s')
  {
    var run := s.running[t];
    forall core: nat, fid, id | IdleAt(s', core, fid, id)
      ensures fid != 0 && IsAt(s', id, Stalled, Instance(fid, core))
    {
    }
    forall id | id in s'.place && id in s'.insts && s'.place[id].Stalled?
      ensures IdleAt(s', s'.insts[id].core, s'.insts[id].fn, id)
    {
      assert IdleAt(s', run.core, run.fid, run.id) <==> IdleAt(s, run.core, run.fid, run.id) || kept;
    }
  }

  lemma BeginHaltsOnce(s: State, s': State, t: Tid, run: Run)
    requires HaltsOnce(s) && Begins(s, s', t, run)
    ensures HaltsOnce(s')
  {
  }

  lemma EndHaltsOnce(s: State, s': State, t: Tid, kept: bool)
    requires HaltsOnce(s) && Ends(s, s', t, kept)
    ensures HaltsOnce(s')
  {
  }

  lemma BeginIsolated(s: State, s': State, t: Tid, run: Run)
    requires Isolated(s) && Begins(s, s', t, run)
    ensures Isolated(s')
  {
  }

  lemma EndIsolated(s: State, s': State, t: Tid, kept: bool)
    requires Isolated(s) && Ends(s, s', t, kept)
    ensures Isolated(s')
  {
  }

  lemma OwnersBegin(s: State, s': State, t: Tid, run: Run)
    requires OwnersOk(s) && Begins(s, s', t, run)
    ensures OwnersOk(s')
  {
    BeginKnown(s, s', t, run);
    BeginSessionsOwn(s, s', t, run);
    BeginCachesOwn(s, s', t, run);
    BeginHaltsOnce(s, s', t, run);
    BeginIsolated(s, s', t, run);
  }

  lemma OwnersEnd(s: State, s': State, t: Tid, kept: bool)
    requires OwnersOk(s) && Ends(s, s', t, kept)
    ensures OwnersOk(s')
  {
    EndKnown(s, s', t, kept);
    EndSessionsOwn(s, s', t, kept);
    EndCachesOwn(s, s', t, kept);
    EndHaltsOnce(s, s', t, kept);
    EndIsolated(s, s', t, kept);
  }

  lemma HotFrame(k: Config, s: State, t: Tid, core: nat, fid: Fid, id: Id)
    requires Enabled(k, s, Start(t, core, fid, Hot, id))
    requires Resolve(k, s, core, fid, Hot).Hot?
    ensures var s' := Step(k, s, Start(t, core, fid, Hot, id));
      var x := s.hot[core].cache.stalled[fid];
      && s'.hot == s.hot[core := HotCache.Step(k.limits, s.hot[core], HotCache.Take(fid))]
      && s'.store == s.store && s'.halts == s.halts && s'.live == s.live && s'.insts == s.insts
      && x != 0 && x in s.live
      && s'.running == s.running[t := Run(core, fid, x, Hot)] && s'.place == s.place[x := InSession(t)]
      && s'.served == s.served + {(x, fid)} && s'.checkpoints == s.checkpoints
  {
  }

  lemma HotStart(k: Config, s: State, t: Tid, core: nat, fid: Fid, id: Id)
    requires ValidConfig(k) && Inv(k, s) && Enabled(k, s, Start(t, core, fid, Hot, id))
    requires Resolve(k, s, core, fid, Hot).Hot?
    ensures Kept(k, Step(k, s, Start(t, core, fid, Hot, id)))
  {
    HotFrame(k, s, t, core, fid, id);
    CachesTake(k, s, Step(k, s, Start(t, core, fid, Hot, id)), core, fid);
    HotOwner(k, s, Step(k, s, Start(t, core, fid, Hot, id)), t, core, fid);
  }

  lemma CachesTake(k: Config, s: State, s': State, core: nat, fid: Fid)
    requires ValidConfig(k) && CachesOk(k, s) && core < |s.hot| && fid in s.hot[core].cache.stalled
    requires s'.hot == s.hot[core := HotCache.Step(k.limits, s.hot[core], HotCache.Take(fid))]
    requires s'.store == s.store
    ensures CachesOk(k, s')
  {
    HotCache.TakeInv(k.limits, s.hot[core], fid);
  }

  lemma HotOwner(k: Config, s: State, s': State, t: Tid, core: nat, fid: Fid)
    requires OwnersOk(s) && t !in s.running && fid != 0 && core < |s.hot| && fid in s.hot[core].cache.stalled
    requires s'.hot == s.hot[core := HotCache.Step(k.limits, s.hot[core], HotCache.Take(fid))]
    requires s'.halts == s.halts && s'.live == s.live && s'.insts == s.insts
    requires var x := s.hot[core].cache.stalled[fid];
      && x != 0 && x in s.live
      && s'.running == s.running[t := Run(core, fid, x, Hot)] && s'.place == s.place[x := InSession(t)]
      && s'.served == s.served + {(x, fid)} && s'.checkpoints == s.checkpoints
    ensures OwnersOk(s')
  {
    var x := s.hot[core].cache.stalled[fid];
    assert IdleAt(s, core, fid, x);
    assert s.insts == s.insts[x := Instance(fid, core)];
    IdleAfterTake(k, s, s', core, fid);
    assert Begins(s, s', t, Run(core, fid, x, Hot));
    OwnersBegin(s, s', t, Run(core, fid, x, Hot));
  }

  lemma IdleAfterTake(k: Config, s: State, s': State, core: nat, fid: Fid)
    requires CachesOwn(s) && core < |s.hot| && fid in s.hot[core].cache.stalled
    requires s'.hot == s.hot[core := HotCache.Step(k.limits, s.hot[core], HotCache.Take(fid))]
    ensures forall c: nat, f, x :: IdleAt(s', c, f, x) <==>
      IdleAt(s, c, f, x) && x != s.hot[core].cache.stalled[fid]
  {
    var id := s.hot[core].cache.stalled[fid];
    assert IdleAt(s, core, fid, id);
    forall c: nat, f, x ensures IdleAt(s', c, f, x) <==> IdleAt(s, c, f, x) && x != id {
      if IdleAt(s, c, f, x) && x == id {
        assert IsAt(s, x, Stalled, Instance(f, c)) && IsAt(s, x, Stalled, Instance(fid, core));
      }
    }
  }

  lemma FreshFrame(k: Config, s: State, t: Tid, core: nat, fid: Fid, from: Kind, id: Id)
    requires Enabled(k, s, Start(t, core, fid, from, id))
    requires !Resolve(k, s, core, fid, from).Hot?
    requires from.Hot? ==> !HasHot(k, s, core, fid)
    requires LoadedFunction(s, fid, Resolve(k, s, core, fid, from)) == fid
    ensures var s' := Step(k, s, Start(t, core, fid, from, id));
      var run := Run(core, fid, id, Resolve(k, s, core, fid, from));
      && s'.hot == s.hot && s'.store == s.store && s'.halts == s.halts
      && s'.live == s.live + {id} && s'.insts == s.insts[id := Instance(fid, core)]
      && s'.running == s.running[t := run] && s'.place == s.place[id := InSession(t)]
      && s'.served == s.served + {(id, fid)}
      && (s'.checkpoints == s.checkpoints || s'.checkpoints == s.checkpoints[id := fid])
  {
  }

  lemma FreshStart(k: Config, s: State, t: Tid, core: nat, fid: Fid, from: Kind, id: Id)
    requires ValidConfig(k) && Inv(k, s) && Enabled(k, s, Start(t, core, fid, from, id))
    requires !Resolve(k, s, core, fid, from).Hot?
    ensures Kept(k, Step(k, s, Start(t, core, fid, from, id)))
  {
    if from.Hot? && HasHot(k, s, core, fid) {
      HotEntryIsAlive(k, s, core, fid);
    }
    FreshFrame(k, s, t, core, fid, from, id);
    FreshOwner(s, Step(k, s, Start(t, core, fid, from, id)), t,
               Run(core, fid, id, Resolve(k, s, core, fid, from)));
  }

  lemma FreshOwner(s: State, s': State, t: Tid, run: Run)
    requires OwnersOk(s) && t !in s.running && run.fid != 0 && run.core < |s.hot|
    requires run.id !in s.insts && run.id != 0
    requires s'.hot == s.hot && s'.halts == s.halts
    requires s'.live == s.live + {run.id} && s'.insts == s.insts[run.id := Instance(run.fid, run.core)]
    requires s'.running == s.running[t := run] && s'.place == s.place[run.id := InSession(t)]
    requires s'.served == s.served + {(run.id, run.fid)}
    requires s'.checkpoints == s.checkpoints || s'.checkpoints == s.checkpoints[run.id := run.fid]
    ensures OwnersOk(s')
  {
    IdleUnchanged(s, s', run.id);
    assert s.halts[run.id] == 0;
    assert Begins(s, s', t, run);
    OwnersBegin(s, s', t, run);
  }

  lemma IdleUnchanged(s: State, s': State, id: Id)
    requires CachesOwn(s) && s'.hot == s.hot && id !in s.insts
    ensures forall c: nat, f, x :: IdleAt(s', c, f, x) <==> IdleAt(s, c, f, x) && x != id
  {
  }

  lemma EndFrame(k: Config, s: State, t: Tid, ok: bool)
    requires Enabled(k, s, End(t, ok))
    ensures var s' := Step(k, s, End(t, ok)); var run := s.running[t];
      var kept := ok && HotCache.CanBeSaved(k.limits, s.hot[run.core].cache, run.fid, run.id);
      && s'.insts == s.insts && s'.live == s.live && s'.store == s.store
      && s'.served == s.served && s'.checkpoints == s.checkpoints
      && s'.running == s.running - {t}
      && s'.place == s.place[run.id := if kept then Stalled else HaltSignalled]
      && s'.halts == s.halts + (if kept then multiset{} else multiset{run.id})
      && s'.hot == if kept
                   then s.hot[run.core := HotCache.Step(k.limits, s.hot[run.core], HotCache.Save(run.fid, run.id))]
                   else s.hot
  {
  }

  lemma SavedIdleAt(k: Config, s: State, s': State, run: Run)
    requires run.core < |s.hot| && HotCache.CanBeSaved(k.limits, s.hot[run.core].cache, run.fid, run.id)
    requires s'.hot == s.hot[run.core := HotCache.Step(k.limits, s.hot[run.core], HotCache.Save(run.fid, run.id))]
    ensures forall c: nat, f, x :: IdleAt(s', c, f, x) <==>
      IdleAt(s, c, f, x) || (c == run.core && f == run.fid && x == run.id)
  {
  }

  lemma EndOwner(s: State, s': State, t: Tid, kept: bool)
    requires OwnersOk(s) && t in s.running
    requires |s'.hot| == |s.hot| && s'.insts == s.insts && s'.live == s.live
    requires s'.served == s.served && s'.checkpoints == s.checkpoints && s'.running == s.running - {t}
    requires s'.place == s.place[s.running[t].id := if kept then Stalled else HaltSignalled]
    requires s'.halts == s.halts + (if kept then multiset{} else multiset{s.running[t].id})
    requires forall c: nat, f, x :: IdleAt(s', c, f, x) <==>
      IdleAt(s, c, f, x) || (kept && c == s.running[t].core && f == s.running[t].fid && x == s.running[t].id)
    ensures OwnersOk(s')
  {
    assert s.halts[s.running[t].id] == 0;
    assert Ends(s, s', t, kept);
    OwnersEnd(s, s', t, kept);
  }

  lemma EndKept(k: Config, s: State, t: Tid)
    requires ValidConfig(k) && Inv(k, s) && Enabled(k, s, End(t, true))
    requires HotCache.CanBeSaved(k.limits, s.hot[s.running[t].core].cache, s.running[t].fid, s.running[t].id)
    ensures Kept(k, Step(k, s, End(t, true)))
  {
    var s' := Step(k, s, End(t, true));
    var run := s.running[t];
    EndFrame(k, s, t, true);
    SaveObligations(k, s, t);
    HotCache.SaveInv(k.limits, s.hot[run.core], run.fid, run.id);
    SavedIdleAt(k, s, s', run);
    EndOwner(s, s', t, true);
  }

  lemma EndHalted(k: Config, s: State, t: Tid, ok: bool)
    requires ValidConfig(k) && Inv(k, s) && Enabled(k, s, End(t, ok))
    requires ok ==> !HotCache.CanBeSaved(k.limits, s.hot[s.running[t].core].cache, s.running[t].fid, s.running[t].id)
    ensures Kept(k, Step(k, s, End(t, ok)))
  {
    var s' := Step(k, s, End(t, ok));
    EndFrame(k, s, t, ok);
    forall c: nat, f, x ensures IdleAt(s', c, f, x) <==> IdleAt(s, c, f, x) {}
    EndOwner(s, s', t, false);
  }

  lemma CaptureOwners(s: State, s': State, id: Id)
    requires OwnersOk(s) && s' == s.(store := s'.store, checkpoints := s.checkpoints - {id})
    ensures OwnersOk(s')
  {
    assert forall c: nat, f, x :: IdleAt(s', c, f, x) <==> IdleAt(s, c, f, x);
  }

  lemma Captured(k: Config, s: State, id: Id, sv: Snap)
    requires ValidConfig(k) && Inv(k, s) && Enabled(k, s, Capture(id, sv))
    ensures Kept(k, Step(k, s, Capture(id, sv)))
    ensures Snapshots.Extends(s.store, Step(k, s, Capture(id, sv)).store)
  {
    hide OwnersOk, HotCache.Inv, Snapshots.Inv, Snapshots.Offer, Snapshots.Extends;
    CapturedFor(s, id);
    Snapshots.OfferInv(s.store, s.checkpoints[id], sv);
    CaptureOwners(s, Step(k, s, Capture(id, sv)), id);
  }

  lemma CapturedFor(s: State, id: Id)
    requires OwnersOk(s) && id in s.checkpoints
    ensures id in s.insts && s.insts[id].fn == s.checkpoints[id]
  {
  }

  lemma StepKept(k: Config, s: State, e: Event)
    requires ValidConfig(k) && Inv(k, s) && Enabled(k, s, e)
    ensures Kept(k, Step(k, s, e))
  {
    hide Step, OwnersOk, CachesOk;
    match e
    case Start(t, core, fid, from, id) =>
      if Resolve(k, s, core, fid, from).Hot? {
        HotStart(k, s, t, core, fid, id);
      } else {
        FreshStart(k, s, t, core, fid, from, id);
      }
    case End(t, ok) =>
      var run := s.running[t];
      if ok && HotCache.CanBeSaved(k.limits, s.hot[run.core].cache, run.fid, run.id) {
        EndKept(k, s, t);
      } else {
        EndHalted(k, s, t, ok);
      }
    case Capture(id, sv) =>
      Captured(k, s, id, sv);
    case RunHalt(id) =>
      HaltRuns(k, s, id);
  }

  lemma StartCounts(k: Config, s: State, t: Tid, core: nat, fid: Fid, from: Kind, id: Id)
    requires Enabled(k, s, Start(t, core, fid, from, id)) && CountsAtHome(s)
    ensures CountsAtHome(Step(k, s, Start(t, core, fid, from, id)))
  {
  }

  lemma EndCounts(k: Config, s: State, t: Tid, ok: bool)
    requires Enabled(k, s, End(t, ok)) && CountsAtHome(s)
    requires IsAt(s, s.running[t].id, InSession(t), Instance(s.running[t].fid, s.running[t].core))
    ensures CountsAtHome(Step(k, s, End(t, ok)))
  {
    hide Step, HotCache.CanBeSaved, HotCache.Saved;
    EndFrame(k, s, t, ok);
  }

  lemma OtherCounts(k: Config, s: State, e: Event)
    requires Enabled(k, s, e) && CountsAtHome(s) && (e.Capture? || e.RunHalt?)
    ensures CountsAtHome(Step(k, s, e))
  {
    hide Snapshots.Offer;
    assert Step(k, s, e).hot == s.hot && Step(k, s, e).insts == s.insts;
  }

  lemma StepCounts(k: Config, s: State, e: Event)
    requires OwnersOk(s) && CountsAtHome(s) && Enabled(k, s, e)
    ensures CountsAtHome(Step(k, s, e))
  {
    hide Step, CountsAtHome, Known, CachesOwn, HaltsOnce, Isolated;
    match e
    case Start(t, core, fid, from, id) => StartCounts(k, s, t, core, fid, from, id);
    case End(t, ok) => EndCounts(k, s, t, ok);
    case _ => OtherCounts(k, s, e);
  }

  lemma StepInv(k: Config, s: State, e: Event)
    requires ValidConfig(k) && Inv(k, s) && Enabled(k, s, e)
    ensures Inv(k, Step(k, s, e))
  {
    hide OwnersOk, CachesOk, CountsAtHome, ImagesOwn, Step;
    StepKept(k, s, e);
    StepCounts(k, s, e);
    StepImages(k, s, e);
  }

  lemma StartImages(k: Config, s: State, t: Tid, core: nat, fid: Fid, from: Kind, id: Id)
    requires Enabled(k, s, Start(t, core, fid, from, id)) && ImagesOwn(s)
    requires fid in s.store.cache ==>
      s.store.cache[fid] in s.store.origin && s.store.origin[s.store.cache[fid]] == fid
    ensures ImagesOwn(Step(k, s, Start(t, core, fid, from, id)))
  {
    hide HotCache.Step, Unlist;
  }

  lemma EndImages(k: Config, s: State, t: Tid, ok: bool)
    requires Enabled(k, s, End(t, ok)) && ImagesOwn(s)
    ensures ImagesOwn(Step(k, s, End(t, ok)))
  {
    hide HotCache.Step, HotCache.CanBeSaved;
  }

  lemma CaptureImages(k: Config, s: State, id: Id, sv: Snap)
    requires Enabled(k, s, Capture(id, sv)) && ImagesOwn(s)
    ensures ImagesOwn(Step(k, s, Capture(id, sv)))
  {
    assert Step(k, s, Capture(id, sv)).store.origin == s.store.origin[sv := s.insts[id].fn];
  }

  lemma StepImages(k: Config, s: State, e: Event)
    requires CachesOk(k, s) && ImagesOwn(s) && Enabled(k, s, e)
    ensures ImagesOwn(Step(k, s, e))
  {
    hide HotCache.Inv;
    match e
    case Start(t, core, fid, from, id) =>
      hide Step, ImagesOwn;
      StartImages(k, s, t, core, fid, from, id);
    case End(t, ok) =>
      hide Step, ImagesOwn;
      EndImages(k, s, t, ok);
    case Capture(id, sv) =>
      hide Step, ImagesOwn;
      CaptureImages(k, s, id, sv);
    case RunHalt(id) =>
  }

  // ---- What a start and an end come to ----

  lemma ResolvesTo(k: Config, s: State, core: nat, fid: Fid, from: Kind)
    requires Inv(k, s) && core < |s.hot|
    ensures var kind := Resolve(k, s, core, fid, from); var idle := s.hot[core].cache.stalled;
      && (kind.Hot? <==> from.Hot? && k.limits.limit > 0 && fid in idle && idle[fid] in s.live)
      && (kind.Warm? <==> !kind.Hot? && !from.Cold? && fid in s.store.cache)
      && (kind.Warm? ==> LoadedFunction(s, fid, kind) == fid)
  {
    if fid in s.hot[core].cache.stalled {
      HotEntryIsAlive(k, s, core, fid);
    }
  }

  lemma StartFields(k: Config, s: State, t: Tid, core: nat, fid: Fid, from: Kind, id: Id)
    requires Enabled(k, s, Start(t, core, fid, from, id))
    requires var kind := Resolve(k, s, core, fid, from);
      && (kind.Hot? ==> fid in s.hot[core].cache.stalled)
      && (kind.Warm? ==> fid in s.store.cache) && LoadedFunction(s, fid, kind) == fid
    ensures var s' := Step(k, s, Start(t, core, fid, from, id)); var kind := Resolve(k, s, core, fid, from);
      && s'.running == s.running[t :=
           Run(core, fid, if kind.Hot? then s.hot[core].cache.stalled[fid] else id, kind)]
      && s'.insts == (if kind.Hot? then s.insts else s.insts[id := Instance(fid, core)])
      && s'.live == (if kind.Hot? then s.live else s.live + {id})
      && s'.image == (if kind.Warm? then s.image[id := s.store.cache[fid]] else s.image)
      && s'.checkpoints ==
           (if kind.Cold? && |s.store.cache| < 32768 then s.checkpoints[id := fid] else s.checkpoints)
      && s'.store == s.store
  {
    hide Resolve, LoadedFunction, Unlist;
  }

  /** Hot, warm or cold. A start is hot exactly when it may be, hot starts are enabled and the core lists
      a live instance of the function, and then it is that instance. Otherwise it is warm exactly when
      it may be and a snapshot of the function is cached, and boots from that snapshot. Otherwise it
      is cold, and leaves a checkpoint exactly while fewer than 32768 snapshots are cached. */
  lemma StartsAs(k: Config, s: State, t: Tid, core: nat, fid: Fid, from: Kind, id: Id)
    requires Inv(k, s) && Enabled(k, s, Start(t, core, fid, from, id))
    ensures var s' := Step(k, s, Start(t, core, fid, from, id)); var idle := s.hot[core].cache.stalled;
      && t in s'.running && var run := s'.running[t];
      && run.core == core && run.fid == fid
      && (run.kind.Hot? <==> from.Hot? && k.limits.limit > 0 && fid in idle && idle[fid] in s.live)
      && (run.kind.Warm? <==> !run.kind.Hot? && !from.Cold? && fid in s.store.cache)
      && run.id == (if run.kind.Hot? then idle[fid] else id)
      && s'.insts == (if run.kind.Hot? then s.insts else s.insts[id := Instance(fid, core)])
      && s'.live == (if run.kind.Hot? then s.live else s.live + {id})
      && s'.image == (if run.kind.Warm? then s.image[id := s.store.cache[fid]] else s.image)
      && s'.checkpoints ==
           (if run.kind.Cold? && |s.store.cache| < 32768 then s.checkpoints[id := fid] else s.checkpoints)
      && s'.store == s.store
  {
    hide Inv, Step, Resolve, LoadedFunction;
    ResolvesTo(k, s, core, fid, from);
    ColdLoads(s, fid);
    StartFields(k, s, t, core, fid, from, id);
  }

  lemma ColdLoads(s: State, fid: Fid)
    ensures LoadedFunction(s, fid, Cold) == fid && LoadedFunction(s, fid, Hot) == fid
  {
  }

  /** Kept or halted. The instance of a session that closed is kept exactly when there is room in the
      cache of its core, its count is within the reuse limit and none is idle for its function; any
      other is told to halt. */
  lemma EndsAs(k: Config, s: State, t: Tid, ok: bool)
    requires Inv(k, s) && Enabled(k, s, End(t, ok))
    ensures var s' := Step(k, s, End(t, ok)); var run := s.running[t];
      var c := s.hot[run.core].cache;
      var kept := ok && |c.stalled| < k.limits.limit && run.fid !in c.stalled
                  && (run.id in c.usage ==> c.usage[run.id] <= k.limits.reuse);
      && s'.running == s.running - {t} && |s'.hot| == |s.hot|
      && s'.place == s.place[run.id := if kept then Stalled else HaltSignalled]
      && s'.halts == s.halts + (if kept then multiset{} else multiset{run.id})
      && s'.hot[run.core].cache.stalled == (if kept then c.stalled[run.fid := run.id] else c.stalled)
      && (forall d: nat | d < |s.hot| && d != run.core :: s'.hot[d] == s.hot[d])
  {
    hide Inv, Step;
    EndFrame(k, s, t, ok);
  }

  /** The history only grows. */
  ghost predicate Grows(s: State, s': State) {
    && (forall id | id in s.insts :: id in s'.insts && s'.insts[id] == s.insts[id])
    && (forall id | id in s.image :: id in s'.image && s'.image[id] == s.image[id])
    && (forall sv | sv in s.store.origin :: sv in s'.store.origin && s'.store.origin[sv] == s.store.origin[sv])
  }

  lemma StepGrows(k: Config, s: State, e: Event)
    requires ImagesOwn(s) && Enabled(k, s, e)
    ensures Grows(s, Step(k, s, e))
  {
    hide HotCache.Step, HotCache.CanBeSaved, Unlist;
  }

  /** The snapshot cache is write-once: no step replaces or deletes an installed snapshot. */
  lemma StoreOnlyGrows(k: Config, s: State, e: Event)
    requires ValidConfig(k) && Inv(k, s) && Enabled(k, s, e)
    ensures Snapshots.Extends(s.store, Step(k, s, e).store)
  {
    if e.Capture? {
      Captured(k, s, e.id, e.sv);
    } else {
      StoreUntouched(k, s, e);
    }
  }

  lemma StoreUntouched(k: Config, s: State, e: Event)
    requires Enabled(k, s, e) && !e.Capture?
    ensures Step(k, s, e).store == s.store
  {
  }

  lemma HaltOwners(s: State, s': State, id: Id)
    requires OwnersOk(s) && s.halts[id] > 0 && s' == s.(live := s.live - {id})
    ensures OwnersOk(s')
  {
    assert forall c: nat, f, x :: IdleAt(s', c, f, x) <==> IdleAt(s, c, f, x);
  }

  lemma HaltRuns(k: Config, s: State, id: Id)
    requires ValidConfig(k) && Inv(k, s) && Enabled(k, s, RunHalt(id))
    ensures Kept(k, Step(k, s, RunHalt(id)))
  {
    hide OwnersOk, HotCache.Inv, Snapshots.Inv;
    HaltOwners(s, Step(k, s, RunHalt(id)), id);
  }

  // ---- Over whole runs ----

  ghost predicate IsRun(k: Config, s: State, es: seq<Event>)
    decreases |es|
  {
    es == [] || (Enabled(k, s, es[0]) && IsRun(k, Step(k, s, es[0]), es[1..]))
  }

  ghost function After(k: Config, s: State, es: seq<Event>): State
    requires IsRun(k, s, es)
    decreases |es|
  {
    if es == [] then s else After(k, Step(k, s, es[0]), es[1..])
  }

  lemma InitInv(k: Config)
    requires ValidConfig(k)
    ensures Inv(k, Init(k))
  {
    forall c: nat | c < k.cores ensures HotCache.Inv(k.limits, Init(k).hot[c]) {
      assert Init(k).hot[c] == HotCache.FRESH;
      assert forall x :: !HotCache.Idle(HotCache.EMPTY, x);
    }
  }

  lemma {:induction false} RunInv(k: Config, s: State, es: seq<Event>)
    requires ValidConfig(k) && Inv(k, s) && IsRun(k, s, es)
    ensures Inv(k, After(k, s, es))
    decreases |es|
  {
    if es != [] {
      StepInv(k, s, es[0]);
      RunInv(k, Step(k, s, es[0]), es[1..]);
    }
  }

  ghost predicate Runs(s: State, id: Id) {
    exists t :: t in s.running && s.running[t].id == id
  }

  ghost predicate Listed(s: State, id: Id) {
    exists core: nat, fid :: IdleAt(s, core, fid, id)
  }

  /** Every instance is in exactly one place, once: in one running session, in one entry of one
      core's cache, or told to halt, and that only once. */
  ghost predicate SinglyOwned(s: State) {
    && (forall t, u | t in s.running && u in s.running && s.running[t].id == s.running[u].id :: t == u)
    && (forall c: nat, f, d: nat, g, id | IdleAt(s, c, f, id) && IdleAt(s, d, g, id) :: c == d && f == g)
    && (forall id :: s.halts[id] <= 1)
    && (forall id | id in s.insts ::
          && (Runs(s, id) || Listed(s, id) || s.halts[id] == 1)
          && !(Runs(s, id) && Listed(s, id))
          && !(Runs(s, id) && s.halts[id] == 1)
          && !(Listed(s, id) && s.halts[id] == 1))
  }

  lemma OneOwner(s: State)
    requires OwnersOk(s)
    ensures SinglyOwned(s)
  {
    forall c: nat, f, d: nat, g, id | IdleAt(s, c, f, id) && IdleAt(s, d, g, id) ensures c == d && f == g {
      assert IsAt(s, id, Stalled, Instance(f, c)) && IsAt(s, id, Stalled, Instance(g, d));
    }
    forall t, u | t in s.running && u in s.running && s.running[t].id == s.running[u].id ensures t == u {
      var id := s.running[t].id;
      assert s.place[id] == InSession(t) && s.place[id] == InSession(u);
    }
    forall id | id in s.insts
      ensures Runs(s, id) <==> s.place[id].InSession?
      ensures Listed(s, id) <==> s.place[id].Stalled?
    {
      if Listed(s, id) {
        var core: nat, fid :| IdleAt(s, core, fid, id);
        assert IsAt(s, id, Stalled, Instance(fid, core));
      }
      if Runs(s, id) {
        var t :| t in s.running && s.running[t].id == id;
        assert IsAt(s, id, InSession(t), Instance(s.running[t].fid, s.running[t].core));
      }
    }
  }

  lemma InstancesAreSinglyOwned(k: Config, es: seq<Event>)
    requires ValidConfig(k) && IsRun(k, Init(k), es)
    ensures SinglyOwned(After(k, Init(k), es))
  {
    InitInv(k);
    RunInv(k, Init(k), es);
    OneOwner(After(k, Init(k), es));
  }

  lemma ServesOne(s: State)
    requires Isolated(s)
    ensures forall id, f, g | (id, f) in s.served && (id, g) in s.served :: f == g
  {
    forall id, f, g | (id, f) in s.served && (id, g) in s.served ensures f == g {
      assert s.insts[(id, f).0].fn == f && s.insts[(id, g).0].fn == g;
    }
  }

  /** Function isolation: over any run an instance serves one function only; idle instances and
      cached snapshots hold the code of the function they are kept under. */
  lemma FunctionsAreIsolated(k: Config, es: seq<Event>)
    requires ValidConfig(k) && IsRun(k, Init(k), es)
    ensures var s := After(k, Init(k), es);
      && (forall id, f, g | (id, f) in s.served && (id, g) in s.served :: f == g)
      && (forall core: nat, fid, id | IdleAt(s, core, fid, id) :: id in s.insts && s.insts[id] == Instance(fid, core))
      && (forall f | f in s.store.cache ::
            s.store.cache[f] in s.store.origin && s.store.origin[s.store.cache[f]] == f)
  {
    InitInv(k);
    RunInv(k, Init(k), es);
    var s := After(k, Init(k), es);
    ServesOne(s);
    forall core: nat, fid, id | IdleAt(s, core, fid, id)
      ensures id in s.insts && s.insts[id] == Instance(fid, core)
    {
      assert IsAt(s, id, Stalled, Instance(fid, core));
    }
  }

  ghost function StartsOf(hot: seq<HotCache.Tracked>, id: Id): seq<nat> {
    seq(|hot|, c requires 0 <= c < |hot| => HotCache.Count(hot[c].starts, id))
  }

  /** How often an instance was started hot, on all cores together. */
  ghost function HotStarts(hot: seq<HotCache.Tracked>, id: Id): nat {
    Sums.SumSeq(StartsOf(hot, id))
  }

  lemma NoSavesNoStarts(h: HotCache.Tracked, id: Id)
    requires HotCache.StartsOk(h) && id !in h.saves
    ensures HotCache.Count(h.starts, id) == 0
  {
    assert HotCache.Count(h.saves, id) == 0;
  }

  lemma HotStartsAtHome(s: State, id: Id)
    requires CountsAtHome(s) && Known(s) && forall c: nat | c < |s.hot| :: HotCache.StartsOk(s.hot[c])
    ensures HotStarts(s.hot, id) ==
      if id in s.insts then HotCache.Count(s.hot[s.insts[id].core].starts, id) else 0
  {
    var home := if id in s.insts then s.insts[id].core else |s.hot|;
    forall c: nat | c < |s.hot| && c != home ensures StartsOf(s.hot, id)[c] == 0 {
      assert id !in s.hot[c].saves;
      NoSavesNoStarts(s.hot[c], id);
    }
    Sums.SumSeqOne(StartsOf(s.hot, id), home);
  }

  /** With a reuse limit below 65535 no instance is ever started hot more than limit + 1 times, on
      all cores together, and a core keeps no more idle instances than its limit. */
  lemma HotStartsAreBounded(k: Config, es: seq<Event>, id: Id)
    requires ValidConfig(k) && IsRun(k, Init(k), es) && k.limits.reuse < HotCache.COUNT_MODULUS - 1
    ensures HotStarts(After(k, Init(k), es).hot, id) <= k.limits.reuse + 1
    ensures forall c | 0 <= c < |After(k, Init(k), es).hot| ::
      |After(k, Init(k), es).hot[c].cache.fifo| <= k.limits.limit
  {
    InitInv(k);
    RunInv(k, Init(k), es);
    var s := After(k, Init(k), es);
    HotStartsAtHome(s, id);
    if id in s.insts {
      HotCache.ReuseBound(k.limits, s.hot[s.insts[id].core], id);
    }
  }

  /** Over any continuation of any reachable state, an installed snapshot stays installed and a
      deleted one is not deleted again. */
  lemma {:induction false} SnapshotsAreWriteOnce(k: Config, s: State, es: seq<Event>)
    requires ValidConfig(k) && Inv(k, s) && IsRun(k, s, es)
    ensures Snapshots.Extends(s.store, After(k, s, es).store)
    decreases |es|
  {
    if es != [] {
      StepInv(k, s, es[0]);
      StoreOnlyGrows(k, s, es[0]);
      SnapshotsAreWriteOnce(k, Step(k, s, es[0]), es[1..]);
    }
  }

  /** The snapshot cache stays within its limit, and each captured snapshot is either installed or
      deleted once, never both, however many cold starts of one function overlap. */
  lemma SnapshotsDoNotLeak(k: Config, es: seq<Event>)
    requires ValidConfig(k) && IsRun(k, Init(k), es)
    ensures var store := After(k, Init(k), es).store;
      && |store.cache| <= 32768
      && (forall sv | sv in store.origin ::
            (Snapshots.Installed(store, sv) && store.deleted[sv] == 0) ||
            (!Snapshots.Installed(store, sv) && store.deleted[sv] == 1))
      && (forall sv | sv !in store.origin :: store.deleted[sv] == 0)
  {
    InitInv(k);
    RunInv(k, Init(k), es);
  }
}
