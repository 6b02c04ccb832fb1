/** The hot-instance cache of one core: idle instances kept for reuse, one per function, with a
    fifo of the function ids and a 16-bit count of how often each instance was saved. */
module HotCache {
  import opened Seuss
  import Sums

  const COUNT_MODULUS := 65536  // stalled_instance_usage_count_ maps to uint16_t

  /** `limit` is hot_instance_limit_ (zero disables hot starts), `reuse` hot_instance_reuse_limit_. */
  datatype Limits = Limits(limit: nat, reuse: nat)

  ghost predicate ValidLimits(k: Limits) {
    k.limit < 65536 && k.reuse < 65536
  }

  datatype Cache = Cache(stalled: map<Fid, Id>, fifo: seq<Fid>, usage: map<Id, nat>)

  const EMPTY := Cache(map[], [], map[])

  predicate CanBeReused(k: Limits, c: Cache, id: Id) {
    |c.stalled| < k.limit && (id in c.usage ==> c.usage[id] <= k.reuse)
  }

  predicate CanBeSaved(k: Limits, c: Cache, fid: Fid, id: Id) {
    CanBeReused(k, c, id) && fid !in c.stalled
  }

  function Saved(c: Cache, fid: Fid, id: Id): Cache {
    var count := if id in c.usage then (c.usage[id] + 1) % COUNT_MODULUS else 1;
    Cache(c.stalled[fid := id], c.fifo + [fid], c.usage[id := count])
  }

  function WithoutFirst(fifo: seq<Fid>, fid: Fid): seq<Fid> {
    if fifo == [] then []
    else if fifo[0] == fid then fifo[1..]
    else [fifo[0]] + WithoutFirst(fifo[1..], fid)
  }

  function Taken(c: Cache, fid: Fid): Cache {
    c.(stalled := c.stalled - {fid}, fifo := WithoutFirst(c.fifo, fid))
  }

  ghost predicate Idle(c: Cache, id: Id) {
    exists f :: f in c.stalled && c.stalled[f] == id
  }

  ghost predicate NoDup(fifo: seq<Fid>) {
    forall i, j | 0 <= i < j < |fifo| :: fifo[i] != fifo[j]
  }

  ghost predicate Valid(k: Limits, c: Cache) {
    && NoDup(c.fifo)
    && (forall f :: f in c.fifo <==> f in c.stalled)
    && |c.fifo| == |c.stalled| <= k.limit
    && (forall f, g | f in c.stalled && g in c.stalled && f != g :: c.stalled[f] != c.stalled[g])
  }

  /** Taking an entry out of the fifo removes just that entry; the others keep their order. */
  lemma {:induction false} WithoutFirstCuts(fifo: seq<Fid>, fid: Fid) returns (i: nat)
    requires fid in fifo
    ensures i < |fifo| && fifo[i] == fid
    ensures WithoutFirst(fifo, fid) == fifo[..i] + fifo[i + 1..]
  {
    if fifo[0] == fid {
      i := 0;
    } else {
      var j := WithoutFirstCuts(fifo[1..], fid);
      i := j + 1;
      assert fifo[..i] == [fifo[0]] + fifo[1..][..j];
    }
  }

  lemma SavedValid(k: Limits, c: Cache, fid: Fid, id: Id)
    requires Valid(k, c) && CanBeSaved(k, c, fid, id) && !Idle(c, id)
    ensures Valid(k, Saved(c, fid, id))
  {
    assert forall f :: f in c.fifo + [fid] <==> f in c.fifo || f == fid;
  }

  lemma CutKeepsRest(fifo: seq<Fid>, i: nat)
    requires NoDup(fifo) && i < |fifo|
    ensures var rest := fifo[..i] + fifo[i + 1..];
      NoDup(rest) && |rest| == |fifo| - 1 && (forall f :: f in rest <==> f in fifo && f != fifo[i])
  {
    var rest := fifo[..i] + fifo[i + 1..];
    forall a, b | 0 <= a < b < |rest| ensures rest[a] != rest[b] {
      assert rest[a] == fifo[if a < i then a else a + 1];
      assert rest[b] == fifo[if b < i then b else b + 1];
    }
    forall f ensures f in rest <==> f in fifo && f != fifo[i] {
      if f in fifo && f != fifo[i] {
        var j :| 0 <= j < |fifo| && fifo[j] == f;
        assert rest[if j < i then j else j - 1] == f;
      }
      if f in rest {
        var j :| 0 <= j < |rest| && rest[j] == f;
        assert f == fifo[if j < i then j else j + 1];
      }
    }
  }

  lemma TakenValid(k: Limits, c: Cache, fid: Fid)
    requires Valid(k, c) && fid in c.stalled
    ensures Valid(k, Taken(c, fid))
  {
    var i := WithoutFirstCuts(c.fifo, fid);
    CutKeepsRest(c.fifo, i);
    Sums.RemoveShrinks(c.stalled, fid);
  }

  // ---- The cache over every sequence of saves and takes ----

  /** A cache with the true number of saves and hot starts of each instance beside it. */
  datatype Tracked = Tracked(cache: Cache, saves: map<Id, nat>, starts: map<Id, nat>)

  const FRESH := Tracked(EMPTY, map[], map[])

  datatype Event = Save(fid: Fid, id: Id) | Take(fid: Fid)

  function Count(m: map<Id, nat>, id: Id): nat {
    if id in m then m[id] else 0
  }

  /** A save is only attempted for an instance that is not idle (it just closed a session), and
      only an existing entry is taken. */
  ghost predicate Enabled(k: Limits, h: Tracked, e: Event) {
    match e
    case Save(fid, id) => fid != 0 && id != 0 && !Idle(h.cache, id)
    case Take(fid) => fid in h.cache.stalled
  }

  function Step(k: Limits, h: Tracked, e: Event): Tracked
    requires e.Take? ==> e.fid in h.cache.stalled
  {
    match e
    case Save(fid, id) =>
      if CanBeSaved(k, h.cache, fid, id) then
        h.(cache := Saved(h.cache, fid, id), saves := h.saves[id := Count(h.saves, id) + 1])
      else h
    case Take(fid) =>
      var id := h.cache.stalled[fid];
      h.(cache := Taken(h.cache, fid), starts := h.starts[id := Count(h.starts, id) + 1])
  }

  /** The stored count is the number of saves, as far as 16 bits can tell. */
  ghost predicate UsageOk(k: Limits, h: Tracked) {
    && h.cache.usage.Keys == h.saves.Keys
    && (forall id | id in h.saves ::
          && h.saves[id] > 0
          && h.cache.usage[id] == h.saves[id] % COUNT_MODULUS
          && (k.reuse < COUNT_MODULUS - 1 ==> h.saves[id] <= k.reuse + 1))
  }

  /** Every save was followed by a hot start, except that of an instance idle now. */
  ghost predicate StartsOk(h: Tracked) {
    forall id :: Count(h.saves, id) == Count(h.starts, id) + if Idle(h.cache, id) then 1 else 0
  }

  ghost predicate Inv(k: Limits, h: Tracked) {
    Valid(k, h.cache) && UsageOk(k, h) && StartsOk(h)
  }

  lemma SavedIdle(c: Cache, fid: Fid, id: Id, x: Id)
    requires fid !in c.stalled
    ensures Idle(Saved(c, fid, id), x) <==> Idle(c, x) || x == id
  {
    var c' := Saved(c, fid, id);
    assert c'.stalled[fid] == id;
    if Idle(c, x) {
      var f :| f in c.stalled && c.stalled[f] == x;
      assert f in c'.stalled && c'.stalled[f] == x;
    }
  }

  lemma TakenIdle(k: Limits, c: Cache, fid: Fid, x: Id)
    requires Valid(k, c) && fid in c.stalled
    ensures Idle(Taken(c, fid), x) <==> Idle(c, x) && x != c.stalled[fid]
  {
    var c' := Taken(c, fid);
    if Idle(c, x) && x != c.stalled[fid] {
      var f :| f in c.stalled && c.stalled[f] == x;
      assert f in c'.stalled && c'.stalled[f] == x;
    }
  }

  lemma CountUp(n: nat)
    ensures (n % COUNT_MODULUS + 1) % COUNT_MODULUS == (n + 1) % COUNT_MODULUS
  {
  }

  lemma SmallCount(n: nat)
    requires n < COUNT_MODULUS
    ensures n % COUNT_MODULUS == n
  {
  }

  lemma SaveCounts(k: Limits, h: Tracked, fid: Fid, id: Id)
    requires ValidLimits(k) && UsageOk(k, h) && CanBeReused(k, h.cache, id)
    ensures UsageOk(k, h.(cache := Saved(h.cache, fid, id), saves := h.saves[id := Count(h.saves, id) + 1]))
  {
    var n := Count(h.saves, id);
    assert id in h.cache.usage <==> id in h.saves by {
      assert id in h.cache.usage.Keys <==> id in h.saves.Keys;
    }
    CountUp(n);
    if id in h.saves && k.reuse < COUNT_MODULUS - 1 {
      SmallCount(n);
      assert n <= k.reuse;
    }
  }

  lemma SaveInv(k: Limits, h: Tracked, fid: Fid, id: Id)
    requires ValidLimits(k) && Inv(k, h) && Enabled(k, h, Save(fid, id)) && CanBeSaved(k, h.cache, fid, id)
    ensures Inv(k, Step(k, h, Save(fid, id)))
  {
    hide Valid, UsageOk, Idle, Saved;
    var h' := Step(k, h, Save(fid, id));
    SavedValid(k, h.cache, fid, id);
    SaveCounts(k, h, fid, id);
    forall x ensures Count(h'.saves, x) == Count(h'.starts, x) + if Idle(h'.cache, x) then 1 else 0 {
      SavedIdle(h.cache, fid, id, x);
    }
  }

  lemma TakeStarts(k: Limits, h: Tracked, fid: Fid)
    requires Valid(k, h.cache) && StartsOk(h) && Enabled(k, h, Take(fid))
    ensures StartsOk(Step(k, h, Take(fid)))
  {
    hide Valid, WithoutFirst;
    var h' := Step(k, h, Take(fid));
    forall x ensures Count(h'.saves, x) == Count(h'.starts, x) + if Idle(h'.cache, x) then 1 else 0 {
      TakenIdle(k, h.cache, fid, x);
    }
  }

  lemma TakeInv(k: Limits, h: Tracked, fid: Fid)
    requires ValidLimits(k) && Inv(k, h) && Enabled(k, h, Take(fid))
    ensures Inv(k, Step(k, h, Take(fid)))
  {
    hide Valid, StartsOk;
    TakenValid(k, h.cache, fid);
    TakeStarts(k, h, fid);
  }

  lemma StepInv(k: Limits, h: Tracked, e: Event)
    requires ValidLimits(k) && Inv(k, h) && Enabled(k, h, e)
    ensures Inv(k, Step(k, h, e))
  {
    match e
    case Save(fid, id) => if CanBeSaved(k, h.cache, fid, id) { SaveInv(k, h, fid, id); }
    case Take(fid) => TakeInv(k, h, fid);
  }

  ghost predicate IsRun(k: Limits, h: Tracked, es: seq<Event>)
    decreases |es|
  {
    es == [] || (Enabled(k, h, es[0]) && IsRun(k, Step(k, h, es[0]), es[1..]))
  }

  ghost function After(k: Limits, h: Tracked, es: seq<Event>): Tracked
    requires IsRun(k, h, es)
    decreases |es|
  {
    if es == [] then h else After(k, Step(k, h, es[0]), es[1..])
  }

  /** Over every sequence of saves and takes the fifo lists exactly the idle instances, without
      duplicates and within the limit, and every save but the current one was a hot start. */
  lemma {:induction false} RunInv(k: Limits, h: Tracked, es: seq<Event>)
    requires ValidLimits(k) && Inv(k, h) && IsRun(k, h, es)
    ensures Inv(k, After(k, h, es))
    decreases |es|
  {
    if es != [] {
      StepInv(k, h, es[0]);
      RunInv(k, Step(k, h, es[0]), es[1..]);
    }
  }

  /** The reuse limit works: the stored count is the number of saves, and no instance is saved, or
      started hot, more than `reuse + 1` times. */
  ghost predicate ReuseIsBounded(k: Limits) {
    forall es, id | IsRun(k, FRESH, es) ::
      var h := After(k, FRESH, es);
      && Count(h.cache.usage, id) == Count(h.saves, id)
      && Count(h.starts, id) <= Count(h.saves, id) <= k.reuse + 1
  }

  lemma Prepend(k: Limits, h: Tracked, e: Event, rest: seq<Event>) returns (es: seq<Event>)
    requires Enabled(k, h, e) && IsRun(k, Step(k, h, e), rest)
    ensures es == [e] + rest && IsRun(k, h, es) && After(k, h, es) == After(k, Step(k, h, e), rest)
  {
    hide Enabled, Step;
    es := [e] + rest;
    assert es[1..] == rest;
  }

  /** One round: instance 1 of function 1 is saved and taken again. */
  lemma Round(k: Limits, h: Tracked) returns (h1: Tracked, h2: Tracked)
    requires ValidLimits(k) && k.limit > 0 && Inv(k, h) && h.cache.stalled == map[]
    requires k.reuse == COUNT_MODULUS - 1 || Count(h.saves, 1) <= k.reuse
    ensures Enabled(k, h, Save(1, 1)) && h1 == Step(k, h, Save(1, 1))
    ensures Enabled(k, h1, Take(1)) && h2 == Step(k, h1, Take(1))
    ensures Inv(k, h2) && h2.cache.stalled == map[] && Count(h2.saves, 1) == Count(h.saves, 1) + 1
  {
    if k.reuse < COUNT_MODULUS - 1 {
      ReuseBound(k, h, 1);
    }
    assert 1 in h.cache.usage.Keys <==> 1 in h.saves.Keys;
    assert CanBeSaved(k, h.cache, 1, 1);
    h1 := Step(k, h, Save(1, 1));
    StepInv(k, h, Save(1, 1));
    h2 := Step(k, h1, Take(1));
    StepInv(k, h1, Take(1));
    assert h2.cache.stalled == map[];
  }

  /** An instance can be saved and taken over and over, up to limit + 1 times, and for ever when the
      limit is 65535. */
  lemma {:induction false} Cycle(k: Limits, h: Tracked, n: nat) returns (es: seq<Event>)
    requires ValidLimits(k) && k.limit > 0 && Inv(k, h) && h.cache.stalled == map[]
    requires k.reuse == COUNT_MODULUS - 1 || Count(h.saves, 1) + n <= k.reuse + 1
    ensures IsRun(k, h, es)
    ensures Count(After(k, h, es).saves, 1) == Count(h.saves, 1) + n
    decreases n
  {
    hide Inv, Enabled, Step;
    if n == 0 {
      es := [];
    } else {
      var h1, h2 := Round(k, h);
      es := Cycle(k, h2, n - 1);
      es := Prepend(k, h1, Take(1), es);
      es := Prepend(k, h, Save(1, 1), es);
    }
  }

  /** The cache after instances 1 to `n` of functions 1 to `n` were saved. */
  ghost predicate Filled(h: Tracked, n: nat) {
    && (forall f: Fid :: f in h.cache.stalled <==> 1 <= f <= n)
    && (forall f | f in h.cache.stalled :: h.cache.stalled[f] == f)
    && (forall id: Id | id > n :: id !in h.cache.usage)
  }

  lemma FillStep(k: Limits, h: Tracked, n: nat)
    requires Filled(h, n) && |h.cache.stalled| == n < k.limit
    ensures CanBeSaved(k, h.cache, n + 1, n + 1)
    ensures var h' := Step(k, h, Save(n + 1, n + 1));
      Filled(h', n + 1) && |h'.cache.stalled| == n + 1
  {
    assert n + 1 !in h.cache.stalled && n + 1 !in h.cache.usage;
    assert |h.cache.stalled[n + 1 := n + 1]| == n + 1;
  }

  lemma NextIsNotIdle(h: Tracked, n: nat)
    requires Filled(h, n)
    ensures !Idle(h.cache, n + 1)
  {
  }

  lemma FillOne(k: Limits, h: Tracked, n: nat)
    requires ValidLimits(k) && Inv(k, h) && Filled(h, n) && |h.cache.stalled| == n < k.limit
    ensures Enabled(k, h, Save(n + 1, n + 1))
    ensures var h' := Step(k, h, Save(n + 1, n + 1));
      Inv(k, h') && Filled(h', n + 1) && |h'.cache.stalled| == n + 1
  {
    hide Inv, Filled, Step, Idle, CanBeSaved;
    NextIsNotIdle(h, n);
    FillStep(k, h, n);
    StepInv(k, h, Save(n + 1, n + 1));
  }

  lemma {:induction false} FillUp(k: Limits, h: Tracked, m: nat, n: nat) returns (es: seq<Event>)
    requires ValidLimits(k) && Inv(k, h) && Filled(h, m) && |h.cache.stalled| == m <= n <= k.limit
    ensures IsRun(k, h, es) && |After(k, h, es).cache.stalled| == n
    decreases n - m
  {
    hide Inv, Enabled, Step, Filled;
    es := [];
    if m < n {
      FillOne(k, h, m);
      es := FillUp(k, Step(k, h, Save(m + 1, m + 1)), m + 1, n);
      es := Prepend(k, h, Save(m + 1, m + 1), es);
    }
  }

  /** Both limits are used up: a cache keeps any number of idle instances up to its limit, and an
      enabled cache saves an instance limit + 1 times. */
  lemma BoundsAreAttained(k: Limits, n: nat) returns (full: seq<Event>, often: seq<Event>)
    requires ValidLimits(k) && n <= k.limit
    ensures IsRun(k, FRESH, full) && |After(k, FRESH, full).cache.stalled| == n
    ensures IsRun(k, FRESH, often)
    ensures k.limit > 0 ==> Count(After(k, FRESH, often).saves, 1) == k.reuse + 1
  {
    full := FillUp(k, FRESH, 0, n);
    often := [];
    if k.limit > 0 {
      often := Cycle(k, FRESH, k.reuse + 1);
    }
  }

  lemma CountIsExact(k: Limits, h: Tracked, id: Id)
    requires UsageOk(k, h) && k.reuse < COUNT_MODULUS - 1
    ensures Count(h.cache.usage, id) == Count(h.saves, id) <= k.reuse + 1
  {
    assert id in h.cache.usage.Keys <==> id in h.saves.Keys;
    if id in h.saves {
      SmallCount(h.saves[id]);
    }
  }

  lemma StartsAreSaves(h: Tracked, id: Id)
    requires StartsOk(h)
    ensures Count(h.starts, id) <= Count(h.saves, id)
  {
    hide Idle, Count;
  }

  lemma ReuseBound(k: Limits, h: Tracked, id: Id)
    requires ValidLimits(k) && Inv(k, h) && k.reuse < COUNT_MODULUS - 1
    ensures Count(h.cache.usage, id) == Count(h.saves, id)
    ensures Count(h.starts, id) <= Count(h.saves, id) <= k.reuse + 1
  {
    hide Valid, UsageOk, StartsOk, Count;
    CountIsExact(k, h, id);
    StartsAreSaves(h, id);
  }

  /** The limit bounds reuse exactly when the 16-bit count can exceed it: a limit of 65535 is never
      reached, because the count wraps to zero first. */
  lemma ReuseIsBoundedWhen(k: Limits)
    requires ValidLimits(k)
    ensures ReuseIsBounded(k) <==> k.reuse < COUNT_MODULUS - 1 || k.limit == 0
  {
    if k.limit == 0 {
      forall es | IsRun(k, FRESH, es) ensures After(k, FRESH, es) == FRESH {
        NoSaves(k, FRESH, es);
      }
      assert ReuseIsBounded(k);
    } else if k.reuse < COUNT_MODULUS - 1 {
      forall es, id | IsRun(k, FRESH, es)
        ensures var h := After(k, FRESH, es);
          && Count(h.cache.usage, id) == Count(h.saves, id)
          && Count(h.starts, id) <= Count(h.saves, id) <= k.reuse + 1
      {
        RunInv(k, FRESH, es);
        ReuseBound(k, After(k, FRESH, es), id);
      }
      assert ReuseIsBounded(k);
    } else {
      var es := Cycle(k, FRESH, COUNT_MODULUS + 1);
      assert Count(After(k, FRESH, es).saves, 1) == k.reuse + 2;
      assert !ReuseIsBounded(k);
    }
  }

  lemma {:induction false} NoSaves(k: Limits, h: Tracked, es: seq<Event>)
    requires k.limit == 0 && IsRun(k, h, es) && h == FRESH
    ensures After(k, h, es) == FRESH
    decreases |es|
  {
    if es != [] {
      NoSaves(k, Step(k, h, es[0]), es[1..]);
    }
  }
}
