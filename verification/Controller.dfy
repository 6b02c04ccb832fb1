/** The controller's table of pending activations. Scheduling files a record under the transaction
    id; a reply takes the record out, completes its promise, and a reply without a record is
    dropped. */
module Controller {
  import opened Seuss

  datatype Record = Record(am: ActivationMessage, start: nat)

  datatype CompletionMessage = CompletionMessage(
    transid: string, activationId: string, name: string, namespaceName: string,
    subject: string, version: string,
    initTime: nat, duration: nat, start: nat, end: nat, statusCode: nat, result: string)

  /** A promise fulfilled: for which transaction, and with what. */
  datatype Completion = Completion(tid: Tid, cm: CompletionMessage)

  datatype State = State(records: map<Tid, Record>, log: seq<Completion>)

  function CompletionOf(am: ActivationMessage, stats: InvocationStats, result: string): CompletionMessage {
    CompletionMessage(am.transid, am.activationId, am.actionName, am.namespaceName, am.subject,
      am.actionVersion, stats.exec.initTime, stats.exec.runTime, 0, 0,
      if stats.exec.status then 1 else 0, result)
  }

  function StatsOf(hash: string -> nat, am: ActivationMessage): InvocationStats {
    InvocationStats(hash(am.transid), hash(am.revision), |am.content|, am.activationId, ExecStats(0, 0, false))
  }

  function Schedule(s: State, tid: Tid, am: ActivationMessage, start: nat): State {
    s.(records := s.records[tid := Record(am, start)])
  }

  function Resolve(s: State, stats: InvocationStats, result: string): State {
    var tid := stats.transactionId;
    if tid !in s.records then s
    else State(s.records - {tid}, s.log + [Completion(tid, CompletionOf(s.records[tid].am, stats, result))])
  }

  predicate Completed(s: State, tid: Tid) {
    exists c :: c in s.log && c.tid == tid
  }

  /** Each transaction is completed at most once, and while it has a record it is not completed. */
  ghost predicate Inv(s: State) {
    && (forall i, j | 0 <= i < j < |s.log| :: s.log[i].tid != s.log[j].tid)
    && (forall t | t in s.records :: !Completed(s, t))
  }

  /** A reply completes its transaction exactly when there is a record: with that record's names, the
      times and the status of the reply, and its result. A second reply changes nothing. */
  lemma ResolveOnce(s: State, stats: InvocationStats, result: string, later: InvocationStats, other: string)
    requires Inv(s) && later.transactionId == stats.transactionId
    ensures var t := stats.transactionId; var s' := Resolve(s, stats, result);
      && Inv(s')
      && (t in s.records ==>
            && s'.records == s.records - {t}
            && |s'.log| == |s.log| + 1 && s'.log[..|s.log|] == s.log
            && var c, am := s'.log[|s.log|], s.records[t].am;
               && c.tid == t
               && c.cm.transid == am.transid && c.cm.activationId == am.activationId
               && c.cm.name == am.actionName && c.cm.version == am.actionVersion
               && c.cm.namespaceName == am.namespaceName && c.cm.subject == am.subject
               && c.cm.duration == stats.exec.runTime && c.cm.initTime == stats.exec.initTime
               && c.cm.start == 0 && c.cm.end == 0
               && c.cm.statusCode == (if stats.exec.status then 1 else 0)
               && c.cm.result == result)
      && (t !in s.records ==> s' == s)
      && (forall u :: Completed(s', u) <==> Completed(s, u) || (u == t && t in s.records))
      && Resolve(s', later, other) == s'
  {
    var t, s' := stats.transactionId, Resolve(s, stats, result);
    if t in s.records {
      var c := Completion(t, CompletionOf(s.records[t].am, stats, result));
      assert c in s'.log;
      forall u ensures Completed(s', u) <==> Completed(s, u) || u == t {
        if Completed(s, u) {
          var d :| d in s.log && d.tid == u;
          assert d in s'.log;
        }
      }
      forall i | 0 <= i < |s.log| ensures s.log[i].tid != t {
        assert s.log[i] in s.log;
      }
    }
  }

  /** The CPU reserved for the n-th node; the remainder has the sign of the dividend. */
  function ReservedCpu(cpus: nat, n: nat): int
    requires cpus > 0
  {
    if cpus >= n then (cpus - n) % cpus else -((n - cpus) % cpus)
  }

  /** There is such a CPU exactly while there are no more nodes than CPUs, or a multiple of them. */
  lemma ReservedCpuExistsWhen(cpus: nat, n: nat)
    requires cpus > 0
    ensures 0 <= ReservedCpu(cpus, n) < cpus <==> n <= cpus || n % cpus == 0
  {
    if cpus < n {
      assert n == (n - cpus) + cpus;
      assert (n - cpus) % cpus == n % cpus by { ModMinusOnce(n, cpus); }
    }
  }

  lemma ModMinusOnce(n: nat, m: nat)
    requires 0 < m <= n
    ensures (n - m) % m == n % m
  {
    assert n == m * (n / m) + n % m;
    var d := n / m - 1 - (n - m) / m;
    assert m * d == (n - m) % m - n % m;
    assert d >= 1 ==> m * d >= m;
    assert -d >= 1 ==> m * -d >= m;
  }

  /** While there are CPUs, each node gets one of its own, counted from the last; then the index is negative or
      zero, and congruent to that count. */
  lemma ReservedCpuIs(cpus: nat, n: nat)
    requires cpus > 0 && n > 0
    ensures n <= cpus ==> ReservedCpu(cpus, n) == cpus - n
    ensures n > cpus ==> ReservedCpu(cpus, n) + cpus > 0 >= ReservedCpu(cpus, n)
    ensures n > cpus ==> (n - cpus + ReservedCpu(cpus, n)) % cpus == 0
  {
    if n > cpus {
      assert n - cpus == cpus * ((n - cpus) / cpus) + (n - cpus) % cpus;
      MultipleHasNoRemainder(cpus, (n - cpus) / cpus);
    }
  }

  lemma MultipleHasNoRemainder(m: nat, q: nat)
    requires m > 0
    ensures (m * q) % m == 0
  {
    var r, p := (m * q) % m, (m * q) / m;
    assert m * (q - p) == r;
    assert q - p >= 1 ==> m * (q - p) >= m;
    assert p - q >= 1 ==> m * (p - q) >= m;
  }

  lemma ReservedCpusAreDistinct(cpus: nat, i: nat, j: nat)
    requires 1 <= i < j <= cpus
    ensures ReservedCpu(cpus, i) != ReservedCpu(cpus, j)
  {
  }

  class Controller {
    var nids: seq<string>
    var frontEndCpus: map<string, int>
    var recordMap: map<Tid, Record>
    var fulfilled: seq<Completion>

    function Abs(): State
      reads this
    {
      State(recordMap, fulfilled)
    }

    /** Every registered node has an entry for its I/O CPU. */
    ghost predicate Valid()
      reads this
    {
      forall n | n in nids :: n in frontEndCpus
    }

    constructor ()
      ensures Valid() && Abs() == State(map[], []) && nids == []
    {
      nids, frontEndCpus, recordMap, fulfilled := [], map[], map[], [];
    }

    /** A node that registers again keeps its first CPU. */
    method RegisterNode(nid: string, cpus: nat)
      requires Valid() && cpus > 0
      modifies this`nids, this`frontEndCpus
      ensures Valid() && nids == old(nids) + [nid]
      ensures nid in old(frontEndCpus) ==> frontEndCpus == old(frontEndCpus)
      ensures nid !in old(frontEndCpus) ==>
        frontEndCpus == old(frontEndCpus)[nid := ReservedCpu(cpus, |nids|)]
      ensures nid !in old(frontEndCpus) && |nids| <= cpus ==> frontEndCpus[nid] == cpus - |nids|
    {
      nids := nids + [nid];
      var index := if cpus >= |nids| then (cpus - |nids|) % cpus else -((|nids| - cpus) % cpus);
      if nid !in frontEndCpus {
        frontEndCpus := frontEndCpus[nid := index];
      }
    }

    method Ready() returns (b: bool)
      ensures b <==> nids != []
    {
      b := |nids| != 0;
    }

    /** Files the record and returns what is sent, to the first node, and the CPU that sends it.
        Without code the code of the action is fetched. The source asserts that the transaction id is
        new and that a node is registered. */
    method ScheduleActivation(hash: string -> nat, am: ActivationMessage, code: string, fetched: string, start: nat)
      returns (nid: string, cpu: int, stats: InvocationStats, args: string, sent: string)
      requires Valid() && hash(am.transid) !in recordMap && nids != []
      modifies this`recordMap
      ensures Abs() == Schedule(old(Abs()), hash(am.transid), am, start)
      ensures nid == nids[0] && nid in frontEndCpus && cpu == frontEndCpus[nid]
      ensures recordMap == old(recordMap)[hash(am.transid) := Record(am, start)]
      ensures stats == StatsOf(hash, am)
      ensures stats.transactionId == hash(am.transid) && stats.functionId == hash(am.revision)
      ensures stats.argsSize == |args| && stats.activationId == am.activationId
      ensures args == am.content && sent == if code == "" then fetched else code
    {
      sent := code;
      if sent == "" {
        sent := fetched;
      }
      var tid := hash(am.transid);
      var fid := hash(am.revision);
      args := am.content;
      stats := InvocationStats(tid, fid, |args|, am.activationId, ExecStats(0, 0, false));
      recordMap := recordMap[tid := Record(am, start)];
      nid := nids[0];
      cpu := frontEndCpus[nid];
    }

    method ResolveActivation(stats: InvocationStats, result: string)
      modifies this`recordMap, this`fulfilled
      ensures Abs() == Resolve(old(Abs()), stats, result)
      ensures stats.transactionId !in old(recordMap) ==> recordMap == old(recordMap) && fulfilled == old(fulfilled)
      ensures stats.transactionId in old(recordMap) ==>
        && recordMap == old(recordMap) - {stats.transactionId}
        && var am := old(recordMap)[stats.transactionId].am;
           fulfilled == old(fulfilled) + [Completion(stats.transactionId,
             CompletionMessage(am.transid, am.activationId, am.actionName, am.namespaceName, am.subject,
               am.actionVersion, stats.exec.initTime, stats.exec.runTime, 0, 0,
               if stats.exec.status then 1 else 0, result))]
    {
      var tid := stats.transactionId;
      if tid !in recordMap {
        return;
      }
      var am := recordMap[tid].am;
      var cm := CompletionMessage(am.transid, am.activationId, am.actionName, am.namespaceName, am.subject,
        am.actionVersion, 0, 0, 0, 0, 0, "{}");
      cm := cm.(initTime := stats.exec.initTime);
      cm := cm.(duration := stats.exec.runTime, start := 0, end := 0);
      cm := cm.(statusCode := if stats.exec.status then 1 else 0);
      cm := cm.(result := result);
      fulfilled := fulfilled + [Completion(tid, cm)];
      recordMap := recordMap - {tid};
    }
  }
}
