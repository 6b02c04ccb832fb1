/** The invoker's objects: the root shared by all cores (work queue and snapshot cache) and the
    per-core invoker (concurrency counter, hot-instance cache, ports). */
module Invoker {
  import opened Seuss
  import WorkQueue
  import HotCache
  import Snapshots
  import Dispatcher
  import Ports

  /** The position of `core` in a round over `n` cores that starts at `offset`. */
  function Turn(core: nat, offset: nat, n: nat): nat
    requires core < n && offset < n
  {
    if core >= offset then core - offset else core + n - offset
  }

  lemma TurnInverts(i: nat, offset: nat, n: nat, core: nat)
    requires i < n && offset < n && core < n
    ensures (i + offset) % n == if i + offset < n then i + offset else i + offset - n
    ensures (i + offset) % n == core <==> Turn(core, offset, n) == i
  {
    if i + offset < n {
      ModOnce(i + offset, n);
    } else {
      ModOnce(i + offset - n, n);
    }
  }

  lemma ModOnce(r: nat, n: nat)
    requires r < n
    ensures r % n == r && (r + n) % n == r
  {
  }

  class InvokerRoot {
    var requestMap: map<Tid, Invocation>
    var requestQueue: seq<Tid>
    var snapmap: map<Fid, Snap>
    var deleted: multiset<Snap>
    var isBootstrapped: bool

    function Queue(): WorkQueue.Queue
      reads this
    {
      WorkQueue.Queue(requestQueue, requestMap)
    }

    constructor ()
      ensures Queue() == WorkQueue.EMPTY && snapmap == map[] && deleted == multiset{} && !isBootstrapped
    {
      requestMap, requestQueue, snapmap := map[], [], map[];
      deleted, isBootstrapped := multiset{}, false;
    }

    /** The base snapshot is made once. */
    method Bootstrap()
      requires !isBootstrapped
      modifies this`isBootstrapped
      ensures isBootstrapped
    {
      isBootstrapped := true;
    }

    /** Queues the invocation and spawns a Poke on every core but the caller's, in a round that
        starts at an offset taken from the transaction id. The source asserts that the id is new. */
    method AddWork(inv: Invocation, me: nat, pokes: array<nat>) returns (r: nat)
      requires inv.info.transactionId !in requestMap
      requires me < pokes.Length
      modifies this`requestMap, this`requestQueue, pokes
      ensures Queue() == WorkQueue.Add(old(Queue()), inv)
      ensures requestQueue == old(requestQueue) + [inv.info.transactionId]
      ensures requestMap == old(requestMap)[inv.info.transactionId := inv]
      ensures forall c | 0 <= c < pokes.Length :: pokes[c] == old(pokes[c]) + if c == me then 0 else 1
      ensures r == 0
    {
      var tid := inv.info.transactionId;
      requestMap := requestMap[tid := inv];
      requestQueue := requestQueue + [tid];
      var n := pokes.Length;
      var offset := tid % n;
      for i := 0 to n
        modifies pokes
        invariant forall c | 0 <= c < n ::
          pokes[c] == old(pokes[c]) + if c != me && Turn(c, offset, n) < i then 1 else 0
      {
        var core := (i + offset) % n;
        forall c | 0 <= c < n ensures core < n && (core == c <==> Turn(c, offset, n) == i) {
          TurnInverts(i, offset, n, c);
        }
        if core != me {
          pokes[core] := pokes[core] + 1;
        }
      }
      r := 0;
    }

    /** Hands out the oldest invocation. That its table entry exists is asserted by the source. */
    method GetWork() returns (r: Option<Invocation>)
      requires WorkQueue.Valid(Queue())
      modifies this`requestMap, this`requestQueue
      ensures WorkQueue.Valid(Queue())
      ensures old(requestQueue) == [] ==> r == None && Queue() == old(Queue())
      ensures old(requestQueue) != [] ==>
        && r == Some(old(WorkQueue.Contents(Queue()))[0])
        && WorkQueue.Contents(Queue()) == old(WorkQueue.Contents(Queue()))[1..]
        && Queue() == WorkQueue.Take(old(Queue()))
    {
      if requestQueue == [] {
        return None;
      }
      WorkQueue.TakeServesOldest(Queue());
      var tid := requestQueue[0];
      requestQueue := requestQueue[1..];
      r := Some(requestMap[tid]);
      requestMap := requestMap - {tid};
    }

    method CacheIsFull() returns (b: bool)
      ensures b <==> |snapmap| >= 32768
    {
      b := |snapmap| >= Snapshots.SNAPMAP_LIMIT;
    }

    method GetSnapshot(fid: Fid) returns (sv: Option<Snap>)
      requires isBootstrapped
      ensures sv == if fid in snapmap then Some(snapmap[fid]) else None
    {
      if fid !in snapmap {
        return None;
      }
      return Some(snapmap[fid]);
    }

    /** Write-once: an entry is never replaced, and a snapshot that is not kept is deleted. */
    method SetSnapshot(fid: Fid, sv: Snap) returns (kept: bool)
      requires isBootstrapped
      modifies this`snapmap, this`deleted
      ensures kept <==> Snapshots.Installs(old(snapmap), fid)
      ensures kept <==> fid !in old(snapmap) && |old(snapmap)| < 32768
      ensures snapmap == if kept then old(snapmap)[fid := sv] else old(snapmap)
      ensures deleted == if kept then old(deleted) else old(deleted) + multiset{sv}
      ensures forall f | f in old(snapmap) :: f in snapmap && snapmap[f] == old(snapmap)[f]
      ensures |old(snapmap)| <= Snapshots.SNAPMAP_LIMIT ==> |snapmap| <= Snapshots.SNAPMAP_LIMIT
    {
      if fid in snapmap {
        deleted := deleted + multiset{sv};
        return false;
      }
      var full := CacheIsFull();
      if full {
        deleted := deleted + multiset{sv};
        return false;
      }
      snapmap := snapmap[fid := sv];
      return true;
    }
  }

  /** What the UM manager is told about an instance that is kept. */
  datatype Signal = Inactive(id: Id) | Yield(id: Id)

  class Invoker {
    const core: nat
    var requestConcurrency: nat       // atomic uint8_t
    var requestConcurrencyLimit: nat
    var invctr: nat
    var hotInstanceLimit: nat
    var hotInstanceReuseLimit: nat
    var stalledInstanceMap: map<Fid, Id>
    var stalledInstanceFifo: seq<Fid>
    var stalledInstanceUsageCount: map<Id, nat>
    var port: nat                     // atomic uint16_t
    var signals: seq<Signal>          // to the UM manager, in order

    function Cache(): HotCache.Cache
      reads this
    {
      HotCache.Cache(stalledInstanceMap, stalledInstanceFifo, stalledInstanceUsageCount)
    }

    function Limits(): HotCache.Limits
      reads this
    {
      HotCache.Limits(hotInstanceLimit, hotInstanceReuseLimit)
    }

    constructor (core: nat)
      ensures this.core == core && requestConcurrency == 0 && requestConcurrencyLimit == 1
      ensures Cache() == HotCache.EMPTY && Limits() == HotCache.Limits(0, 300) && port == 0 && signals == []
    {
      this.core := core;
      requestConcurrency, requestConcurrencyLimit, invctr := 0, 1, 0;
      hotInstanceLimit, hotInstanceReuseLimit := 0, 300;
      stalledInstanceMap, stalledInstanceFifo, stalledInstanceUsageCount := map[], [], map[];
      port, signals := 0, [];
    }

    /** A Poke event up to the start of `Invoke`: discarded on a saturated core, otherwise it takes
        the oldest request, if any, and counts it. */
    method Poke(root: InvokerRoot) returns (work: Option<Invocation>)
      requires WorkQueue.Valid(root.Queue())
      modifies root`requestMap, root`requestQueue, this`requestConcurrency, this`invctr
      ensures WorkQueue.Valid(root.Queue())
      ensures work.Some? <==> old(requestConcurrency) < requestConcurrencyLimit && old(root.requestQueue) != []
      ensures work.Some? ==>
        && work == Some(old(WorkQueue.Contents(root.Queue()))[0])
        && root.Queue() == WorkQueue.Take(old(root.Queue()))
        && requestConcurrency == (old(requestConcurrency) + 1) % Dispatcher.COUNTER_MODULUS
        && invctr == old(invctr) + 1
      ensures work.None? ==>
        && root.Queue() == old(root.Queue())
        && requestConcurrency == old(requestConcurrency) && invctr == old(invctr)
    {
      if requestConcurrency >= requestConcurrencyLimit {
        return None;
      }
      work := root.GetWork();
      if work.Some? {
        requestConcurrency := (requestConcurrency + 1) % Dispatcher.COUNTER_MODULUS;
        invctr := invctr + 1;
      }
    }

    /** The end of `Invoke`: the frame is given up and a Poke spawned on this core. */
    method EndInvoke(pokes: array<nat>)
      requires core < pokes.Length
      modifies this`requestConcurrency, pokes
      ensures requestConcurrency == (old(requestConcurrency) + Dispatcher.COUNTER_MODULUS - 1)
        % Dispatcher.COUNTER_MODULUS
      ensures old(0 < requestConcurrency < Dispatcher.COUNTER_MODULUS) ==>
        requestConcurrency == old(requestConcurrency) - 1
      ensures pokes[..] == old(pokes[..])[core := old(pokes[core]) + 1]
    {
      requestConcurrency := (requestConcurrency + Dispatcher.COUNTER_MODULUS - 1) % Dispatcher.COUNTER_MODULUS;
      pokes[core] := pokes[core] + 1;
    }

    method HotInstanceExists(fid: Fid) returns (b: bool)
      ensures b <==> fid in stalledInstanceMap
    {
      b := fid in stalledInstanceMap;
    }

    method HotInstanceCanBeReused(id: Id) returns (b: bool)
      requires id != 0
      ensures b <==> HotCache.CanBeReused(Limits(), Cache(), id)
      ensures b <==>
        && |stalledInstanceMap| < hotInstanceLimit
        && (id in stalledInstanceUsageCount ==> stalledInstanceUsageCount[id] <= hotInstanceReuseLimit)
    {
      var c := |stalledInstanceMap|;
      if c >= hotInstanceLimit {
        return false;
      }
      if id in stalledInstanceUsageCount {
        if stalledInstanceUsageCount[id] <= hotInstanceReuseLimit {
          return true;
        }
        return false;
      }
      return true;
    }

    /** Keeps the instance idle for its function, if the limits and the cache allow it. `live` are
        the instances the UM manager knows; the source asserts that it knows one that is kept. */
    method SaveHotInstance(fid: Fid, id: Id, live: set<Id>) returns (saved: bool)
      requires fid != 0 && id != 0
      requires HotCache.CanBeSaved(Limits(), Cache(), fid, id) ==> id in live
      modifies this`stalledInstanceMap, this`stalledInstanceFifo, this`stalledInstanceUsageCount, this`signals
      ensures saved <==> HotCache.CanBeSaved(Limits(), old(Cache()), fid, id)
      ensures saved <==>
        && |old(stalledInstanceMap)| < hotInstanceLimit
        && (id in old(stalledInstanceUsageCount) ==> old(stalledInstanceUsageCount)[id] <= hotInstanceReuseLimit)
        && fid !in old(stalledInstanceMap)
      ensures Cache() == if saved then HotCache.Saved(old(Cache()), fid, id) else old(Cache())
      ensures saved ==>
        && stalledInstanceMap == old(stalledInstanceMap)[fid := id]
        && stalledInstanceFifo == old(stalledInstanceFifo) + [fid]
        && stalledInstanceUsageCount == old(stalledInstanceUsageCount)[id :=
             if id in old(stalledInstanceUsageCount) then (old(stalledInstanceUsageCount)[id] + 1) % 65536 else 1]
      ensures signals == old(signals) + if saved then [Inactive(id), Yield(id)] else []
    {
      var reusable := HotInstanceCanBeReused(id);
      if !reusable {
        return false;
      }
      var exists_ := HotInstanceExists(fid);
      if exists_ {
        return false;
      }
      if id in stalledInstanceUsageCount {
        var count := stalledInstanceUsageCount[id] + 1;
        stalledInstanceUsageCount := stalledInstanceUsageCount[id := count % HotCache.COUNT_MODULUS];
      } else {
        stalledInstanceUsageCount := stalledInstanceUsageCount[id := 1];
      }
      assert id in live;
      signals := signals + [Inactive(id)];
      signals := signals + [Yield(id)];
      stalledInstanceMap := stalledInstanceMap[fid := id];
      stalledInstanceFifo := stalledInstanceFifo + [fid];
      return true;
    }

    /** Position of the first `fid` in the fifo, or its length. */
    method Find(fid: Fid) returns (at: nat)
      ensures at <= |stalledInstanceFifo| && fid !in stalledInstanceFifo[..at]
      ensures at < |stalledInstanceFifo| ==> stalledInstanceFifo[at] == fid
    {
      at := 0;
      while at < |stalledInstanceFifo| && stalledInstanceFifo[at] != fid
        invariant at <= |stalledInstanceFifo| && fid !in stalledInstanceFifo[..at]
      {
        at := at + 1;
      }
    }

    /** Unlists the idle instance of a function; the source aborts when there is none. */
    method GetHotInstance(fid: Fid) returns (id: Id)
      requires fid in stalledInstanceMap
      modifies this`stalledInstanceMap, this`stalledInstanceFifo
      ensures id == old(stalledInstanceMap)[fid]
      ensures Cache() == HotCache.Taken(old(Cache()), fid)
      ensures stalledInstanceMap == old(stalledInstanceMap) - {fid}
      ensures fid in old(stalledInstanceFifo) ==>
        exists i | 0 <= i < |old(stalledInstanceFifo)| && old(stalledInstanceFifo)[i] == fid ::
          && fid !in old(stalledInstanceFifo)[..i]
          && stalledInstanceFifo == old(stalledInstanceFifo)[..i] + old(stalledInstanceFifo)[i + 1..]
      ensures fid !in old(stalledInstanceFifo) ==> stalledInstanceFifo == old(stalledInstanceFifo)
    {
      id := stalledInstanceMap[fid];
      stalledInstanceMap := stalledInstanceMap - {fid};
      var at := Find(fid);
      CutAt(stalledInstanceFifo, fid, at);
      if at < |stalledInstanceFifo| {
        stalledInstanceFifo := stalledInstanceFifo[..at] + stalledInstanceFifo[at + 1..];
      }
    }

    /** The lookup at the head of a hot start. `live` are the instances the UM manager knows. */
    method FindHotStart(fid: Fid, live: set<Id>) returns (id: Option<Id>)
      modifies this`stalledInstanceMap, this`stalledInstanceFifo
      ensures var c := old(Cache());
        && (hotInstanceLimit == 0 || fid !in c.stalled ==> id == None && Cache() == c)
        && (hotInstanceLimit > 0 && fid in c.stalled ==>
              && Cache() == HotCache.Taken(c, fid) && stalledInstanceMap == c.stalled - {fid}
              && id == if c.stalled[fid] != 0 && c.stalled[fid] in live then Some(c.stalled[fid]) else None)
    {
      if hotInstanceLimit == 0 {
        return None;
      }
      var exists_ := HotInstanceExists(fid);
      if !exists_ {
        return None;
      }
      var umi := GetHotInstance(fid);
      if umi == 0 || umi !in live {
        return None;
      }
      return Some(umi);
    }

    method GetInternalPort(cores: nat) returns (p: nat)
      modifies this`port
      ensures port == (old(port) + cores) % Ports.COUNTER_MODULUS
      ensures p == Ports.PortOf(port, core) && p == 49160 + (port + core) % 16375 && 49160 <= p <= 65534
    {
      port := (port + cores) % Ports.COUNTER_MODULUS;
      p := Ports.BASE_PORT + (port + core) % Ports.PORT_RANGE;
    }
  }

  lemma {:induction false} CutAt(fifo: seq<Fid>, fid: Fid, at: nat)
    requires at <= |fifo| && fid !in fifo[..at] && (at < |fifo| ==> fifo[at] == fid)
    ensures HotCache.WithoutFirst(fifo, fid) == if at < |fifo| then fifo[..at] + fifo[at + 1..] else fifo
  {
    if at > 0 {
      assert fifo[0] == fifo[..at][0];
      assert fifo[1..][..at - 1] == fifo[..at][1..];
      CutAt(fifo[1..], fid, at - 1);
    }
  }
}
