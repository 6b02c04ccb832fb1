/** Progress of the pipeline: without new activations every run is finite, a run only stops when
    nothing is left to do or all attempts at some request failed, and what is answered by then is
    completed exactly once. */
module PipelineProgress {
  import opened Seuss
  import opened Pipeline
  import PipelineTheorems
  import Controller
  import Dispatcher
  import Instances
  import Session
  import Sums
  import Wire
  import WorkQueue

  // ---- The measure ----

  const PER_WORK: nat := 45

  /** The attempts that may still follow the one the frame is in. */
  function Retries(kind: Instances.Kind): nat {
    match kind case Hot => 2 case Warm => 1 case Cold => 0
  }

  /** What a frame may still do: 30 for each retry, and its own load, session and return. */
  ghost function Budget(fr: Frame): nat {
    var r := Session.Remaining(fr.session);
    30 * Retries(fr.kind) + Session.Bit(!fr.loaded) + 3 * (if r < 0 then 0 else r) + 2
  }

  ghost function Budgets(frames: map<Tid, Frame>): map<Tid, nat> {
    map t | t in frames :: Budget(frames[t])
  }

  ghost function Arrivals(k: Config, n: nat): nat {
    n * (PER_WORK * (3 + k.disp.cores) + 1)
  }

  ghost function Total(k: Config, s: State): nat {
    Arrivals(k, |s.requests|) + PER_WORK * Dispatcher.Work(s.disp)
    + Sums.SumMap(Budgets(s.frames)) + |s.inst.live| + |s.inst.checkpoints|
    + |s.replies| + (if s.status == Running then 1 else 0)
  }

  lemma ArrivalsDown(k: Config, n: nat)
    requires n > 0
    ensures Arrivals(k, n) == Arrivals(k, n - 1) + PER_WORK * (3 + k.disp.cores) + 1
  {
  }

  lemma BudgetUpdate(frames: map<Tid, Frame>, t: Tid, fr: Frame)
    ensures t in frames ==>
      Sums.SumMap(Budgets(frames[t := fr])) == Sums.SumMap(Budgets(frames)) - Budget(frames[t]) + Budget(fr)
    ensures t !in frames ==>
      Sums.SumMap(Budgets(frames[t := fr])) == Sums.SumMap(Budgets(frames)) + Budget(fr)
  {
    assert Budgets(frames[t := fr]) == Budgets(frames)[t := Budget(fr)];
    Sums.SumMapUpdate(Budgets(frames), t, Budget(fr));
  }

  lemma BudgetRemove(frames: map<Tid, Frame>, t: Tid)
    requires t in frames
    ensures Sums.SumMap(Budgets(frames - {t})) == Sums.SumMap(Budgets(frames)) - Budget(frames[t])
  {
    assert Budgets(frames - {t}) == Budgets(frames) - {t};
    Sums.SumMapRemove(Budgets(frames), t);
  }

  /** A start creates at most one instance and one checkpoint. */
  lemma StartCost(k: Instances.Config, s: Instances.State, t: Tid, core: nat, fid: Fid, from: Instances.Kind, id: Id)
    requires Instances.Enabled(k, s, Instances.Start(t, core, fid, from, id))
    ensures var s' := Instances.Step(k, s, Instances.Start(t, core, fid, from, id));
      |s'.live| <= |s.live| + 1 && |s'.checkpoints| <= |s.checkpoints| + 1
  {
    assert |s.live + {id}| <= |s.live| + 1;
    assert |s.checkpoints[id := fid]| <= |s.checkpoints| + 1;
  }

  lemma NewFrameBudget(core: nat, inv: Invocation, kind: Instances.Kind)
    ensures Budget(NewFrame(core, inv, kind)) <= 30 * Retries(kind) + 24
    ensures kind.Hot? ==> Budget(NewFrame(core, inv, kind)) == 83
  {
  }

  lemma AttemptCost(k: Config, s: State, core: nat, inv: Invocation, from: Instances.Kind, id: Id)
    requires core < |s.inst.hot| && inv.info.functionId != 0
    requires inv.info.transactionId !in s.inst.running && Fresh(s, id)
    ensures var s' := Attempt(k, s, core, inv, from, id); var t := inv.info.transactionId;
      && t in s'.frames && s' == s.(inst := s'.inst, frames := s.frames[t := s'.frames[t]])
      && |s'.inst.live| <= |s.inst.live| + 1 && |s'.inst.checkpoints| <= |s.inst.checkpoints| + 1
      && Budget(s'.frames[t]) <= 30 * Retries(from) + 24
  {
    var kind := Instances.Resolve(Inst(k), s.inst, core, inv.info.functionId, from);
    StartCost(Inst(k), s.inst, inv.info.transactionId, core, inv.info.functionId, from, id);
    NewFrameBudget(core, inv, kind);
  }

  // ---- Every event other than a new activation uses up some of it ----

  lemma RequestUses(k: Config, s: State, m: Wire.Message)
    requires ValidConfig(k) && Inv(k, s) && Enabled(k, s, DeliverRequest(m))
    ensures Total(k, Step(k, s, DeliverRequest(m))) < Total(k, s)
  {
    hide Dispatcher.Step, Dispatcher.Work;
    AcceptRequest(k, s.scheduled, s.requests, s.disp.accepted, m);
    var inv := InvocationOf(k, s.scheduled[m.header.record.transactionId]);
    Dispatcher.WorkAfter(k.disp, s.disp, Dispatcher.AddWork(inv));
    assert |s.requests - multiset{m}| == |s.requests| - 1;
    ArrivalsDown(k, |s.requests|);
  }

  lemma PokeUses(k: Config, s: State, core: nat, id: Id)
    requires ValidConfig(k) && Inv(k, s) && Enabled(k, s, RunPoke(core, id))
    ensures Total(k, Step(k, s, RunPoke(core, id))) < Total(k, s)
  {
    Dispatcher.WorkAfter(k.disp, s.disp, Dispatcher.Poke(core));
    if Dispatcher.Dispatches(k.disp, s.disp, core) {
      WorkQueue.TakeServesOldest(s.disp.queue);
      var t := s.disp.queue.order[0];
      var inv := s.disp.queue.table[t];
      QueuedFacts(k, s, t);
      AttemptCost(k, DispStep(k, s, Dispatcher.Poke(core)), core, inv, Instances.Hot, id);
      BudgetUpdate(s.frames, t, Step(k, s, RunPoke(core, id)).frames[t]);
    }
  }

  lemma LoadUses(k: Config, s: State, t: Tid)
    requires Enabled(k, s, LoadDone(t))
    ensures Total(k, Step(k, s, LoadDone(t))) < Total(k, s)
  {
    BudgetUpdate(s.frames, t, s.frames[t].(loaded := true));
  }

  lemma SettleCost(k: Config, s: State, t: Tid, x: Session.Session, now: nat)
    requires t in s.frames && s.status == Running
    requires x.h.setFinished > s.frames[t].session.h.setFinished ==>
      CanStep(k, s.inst, Instances.End(t, x.h.finishedOk))
    ensures var s' := Settle(k, s, t, x, now);
      && s'.status == Running && s'.disp == s.disp && s'.requests == s.requests
      && s'.inst.live == s.inst.live && s'.inst.checkpoints == s.inst.checkpoints
      && |s'.replies| <= |s.replies| + 1
      && s'.frames == s.frames[t := s.frames[t].(session := x)]
  {
    SettleFields(k, s, t, x, now);
    SettleInst(k, s, t, x, now);
    SettleResults(k, s, t, x, now);
    if x.h.setFinished > s.frames[t].session.h.setFinished {
      Instances.OtherRunning(Inst(k), s.inst, Instances.End(t, x.h.finishedOk));
    }
  }

  lemma MovedBudget(fr: Frame, e: Session.Event)
    requires Session.Inv(fr.session) && Session.Enabled(fr.session, e) && Session.Expected(fr.session, e)
    ensures Budget(fr.(session := Session.Step(fr.session, e))) <= Budget(fr) - 3
  {
    hide Session.Step, Session.Remaining;
    Session.SessionsEnd(fr.session, e);
  }

  lemma SessionCanEnd(k: Config, s: State, t: Tid, e: Session.Event, x: Session.Session)
    requires t in s.frames && s.frames[t].loaded && Session.Enabled(s.frames[t].session, e) && !SendsEmpty(s, t, e)
    requires x == Session.Step(s.frames[t].session, e)
    requires ValidConfig(k) && Inv(k, s)
    ensures x.h.setFinished > s.frames[t].session.h.setFinished ==>
      CanStep(k, s.inst, Instances.End(t, x.h.finishedOk))
  {
    hide Session.Step, Dispatcher.Inv, Instances.Inv, FramesMatch, SessionsMatch;
    hide RequestsMatch, RepliesMatch, RecordsMatch, CanStep;
    FrameCore(k, s, t);
    SessionFrames(s.inst.running, s.frames, t, e);
    if x.h.setFinished > s.frames[t].session.h.setFinished {
      EndKeeps(k, s.inst, t, x.h.finishedOk);
    }
  }

  lemma DownUses(k: Config, s: State, t: Tid)
    requires s.status == Running
    ensures Total(k, s.(status := EmptyPayload(t))) < Total(k, s)
  {
  }

  lemma SessionUses(k: Config, s: State, t: Tid, e: Session.Event)
    requires ValidConfig(k) && Inv(k, s) && Enabled(k, s, SessionEvent(t, e))
    requires Session.Expected(s.frames[t].session, e)
    ensures Total(k, Step(k, s, SessionEvent(t, e))) < Total(k, s)
  {
    hide Inv, Step, Settle, Session.Step, SendsEmpty, Budget, Total, CanStep;
    PipelineTheorems.OwnSession(k, s, t);
    SessionEventStep(k, s, t, e);
    if SendsEmpty(s, t, e) {
      DownUses(k, s, t);
    } else {
      MovedBudget(s.frames[t], e);
      SessionCanEnd(k, s, t, e, Session.Step(s.frames[t].session, e));
      SettleUses(k, s, t, Session.Step(s.frames[t].session, e), Time(e));
    }
  }

  lemma SettleUses(k: Config, s: State, t: Tid, x: Session.Session, now: nat)
    requires t in s.frames && s.status == Running
    requires x.h.setFinished > s.frames[t].session.h.setFinished ==>
      CanStep(k, s.inst, Instances.End(t, x.h.finishedOk))
    requires Budget(s.frames[t].(session := x)) <= Budget(s.frames[t]) - 3
    ensures Total(k, Settle(k, s, t, x, now)) < Total(k, s)
  {
    SettleCost(k, s, t, x, now);
    BudgetUpdate(s.frames, t, s.frames[t].(session := x));
  }

  lemma ReturnUses(k: Config, s: State, t: Tid, id: Id)
    requires ValidConfig(k) && Inv(k, s) && Enabled(k, s, Resume(t, id)) && s.frames[t].session.h.finishedOk
    ensures Total(k, Step(k, s, Resume(t, id))) < Total(k, s)
  {
    FinishFrames(k, s.disp, s.frames, t);
    Dispatcher.WorkAfter(k.disp, s.disp, Dispatcher.Finish(s.frames[t].core, t));
    BudgetRemove(s.frames, t);
  }

  lemma AttemptUses(k: Config, s: State, t: Tid, from: Instances.Kind, id: Id)
    requires t in s.frames && s.status == Running && Retries(from) < Retries(s.frames[t].kind) && Fresh(s, id)
    requires s.frames[t].inv.info.transactionId == t && s.frames[t].inv.info.functionId != 0
    requires t !in s.inst.running && s.frames[t].core < |s.inst.hot|
    ensures Total(k, Attempt(k, s, s.frames[t].core, s.frames[t].inv, from, id)) < Total(k, s)
  {
    var fr := s.frames[t];
    AttemptCost(k, s, fr.core, fr.inv, from, id);
    BudgetUpdate(s.frames, t, Attempt(k, s, fr.core, fr.inv, from, id).frames[t]);
  }

  lemma RetryUses(k: Config, s: State, t: Tid, id: Id)
    requires ValidConfig(k) && Inv(k, s) && Enabled(k, s, Resume(t, id))
    requires !s.frames[t].session.h.finishedOk
    ensures Total(k, Step(k, s, Resume(t, id))) < Total(k, s)
  {
    FrameFacts(k, s, t);
    FinishSessions(s.inst.running, s.frames, t);
    FailedAttemptUses(k, s, t, id);
  }

  lemma FailedAttemptUses(k: Config, s: State, t: Tid, id: Id)
    requires Enabled(k, s, Resume(t, id)) && !s.frames[t].session.h.finishedOk
    requires s.frames[t].inv.info.transactionId == t && s.frames[t].inv.info.functionId != 0
    requires t !in s.inst.running && s.frames[t].core < |s.inst.hot|
    ensures Total(k, Step(k, s, Resume(t, id))) < Total(k, s)
  {
    ResumeStep(k, s, t, id);
    match s.frames[t].kind
    case Hot => AttemptUses(k, s, t, Instances.Warm, id);
    case Warm => AttemptUses(k, s, t, Instances.Cold, id);
    case Cold =>
  }

  lemma ResumeUses(k: Config, s: State, t: Tid, id: Id)
    requires ValidConfig(k) && Inv(k, s) && Enabled(k, s, Resume(t, id))
    ensures Total(k, Step(k, s, Resume(t, id))) < Total(k, s)
  {
    if s.frames[t].session.h.finishedOk {
      ReturnUses(k, s, t, id);
    } else {
      RetryUses(k, s, t, id);
    }
  }

  lemma CaptureUses(k: Config, s: State, id: Id, sv: Snap)
    requires Enabled(k, s, Capture(id, sv))
    ensures Total(k, Step(k, s, Capture(id, sv))) < Total(k, s)
  {
    Sums.RemoveShrinks(s.inst.checkpoints, id);
    assert Step(k, s, Capture(id, sv)).inst.checkpoints == s.inst.checkpoints - {id};
  }

  lemma HaltUses(k: Config, s: State, id: Id)
    requires Enabled(k, s, RunHalt(id))
    ensures Total(k, Step(k, s, RunHalt(id))) < Total(k, s)
  {
    assert |s.inst.live - {id}| == |s.inst.live| - 1;
    assert Step(k, s, RunHalt(id)).inst.live == s.inst.live - {id};
  }

  lemma ReplyUses(k: Config, s: State, m: Wire.Message)
    requires Enabled(k, s, DeliverReply(m)) && GoodReply(s.results, m)
    ensures Total(k, Step(k, s, DeliverReply(m))) < Total(k, s)
  {
    DeliverReplyStep(k, s, m);
    assert |s.replies - multiset{m}| == |s.replies| - 1;
  }

  /** An answer only comes in for a request that is not yet answered. */
  predicate Expected(s: State, e: Event) {
    e.SessionEvent? && e.tid in s.frames ==> Session.Expected(s.frames[e.tid].session, e.e)
  }

  lemma StepUses(k: Config, s: State, e: Event)
    requires ValidConfig(k) && Inv(k, s) && Enabled(k, s, e) && !e.Schedule? && Expected(s, e)
    ensures Total(k, Step(k, s, e)) < Total(k, s)
  {
    match e
    case DeliverRequest(m) => RequestUses(k, s, m);
    case RunPoke(core, id) => PokeUses(k, s, core, id);
    case LoadDone(t) => LoadUses(k, s, t);
    case SessionEvent(t, se) => SessionUses(k, s, t, se);
    case Resume(t, id) => ResumeUses(k, s, t, id);
    case Capture(id, sv) => CaptureUses(k, s, id, sv);
    case RunHalt(id) => HaltUses(k, s, id);
    case DeliverReply(m) => ReplyUses(k, s, m);
  }

  /** No new activation, and no answer that nobody asked for. */
  ghost predicate Undisturbed(k: Config, s: State, es: seq<Event>)
    requires IsRun(k, s, es)
    decreases |es|
  {
    es == [] || (!es[0].Schedule? && Expected(s, es[0]) && Undisturbed(k, Step(k, s, es[0]), es[1..]))
  }

  /** An undisturbed run has at most as many events as the total. */
  lemma {:induction false} RunsAreBounded(k: Config, s: State, es: seq<Event>)
    requires ValidConfig(k) && Inv(k, s) && IsRun(k, s, es) && Undisturbed(k, s, es)
    ensures |es| <= Total(k, s)
    decreases |es|
  {
    hide Inv, Step, Total, Enabled;
    if es != [] {
      StepUses(k, s, es[0]);
      StepInv(k, s, es[0]);
      RunsAreBounded(k, Step(k, s, es[0]), es[1..]);
    }
  }

  // ---- Coming to rest ----

  /** Nothing is left to happen but a new activation, or a checkpoint that some instance has not hit
      and may never hit. */
  ghost predicate Quiescent(k: Config, s: State) {
    forall e :: Enabled(k, s, e) ==> e.Schedule? || e.Capture?
  }

  lemma {:induction false} AboveAll(ids: set<Id>) returns (id: Id)
    ensures id != 0 && forall x | x in ids :: x < id
    decreases |ids|
  {
    if ids == {} {
      id := 1;
    } else {
      var x :| x in ids;
      var y := AboveAll(ids - {x});
      id := if x < y then y else x + 1;
      assert forall z | z in ids :: z == x || z in ids - {x};
    }
  }

  /** A live frame can always move on: load, step its session, or return from it. The timer is what
      gets a silent session going again. */
  lemma FramesMove(k: Config, s: State, t: Tid) returns (e: Event)
    requires s.status == Running && t in s.frames && SessionMatches(s.inst.running, t, s.frames[t])
    ensures Enabled(k, s, e) && !e.Schedule? && !e.Capture? && Expected(s, e)
  {
    var fr := s.frames[t];
    if !fr.loaded {
      e := LoadDone(t);
    } else if fr.session.h.setFinished > 0 {
      var id := AboveAll(s.inst.insts.Keys);
      e := Resume(t, id);
    } else {
      var se := Session.NeverStuck(fr.session);
      e := SessionEvent(t, se);
    }
  }

  lemma FramesAreBusy(k: Config, s: State)
    requires s.status == Running && SessionsMatch(s.inst.running, s.frames)
    ensures s.frames != map[] ==> !Quiescent(k, s)
  {
    if s.frames != map[] {
      var t :| t in s.frames;
      var e := FramesMove(k, s, t);
    }
  }

  lemma PokesAreBusy(k: Config, s: State, c: nat)
    requires s.status == Running && c < |s.disp.cores|
    ensures s.disp.cores[c].pokes > 0 ==> !Quiescent(k, s)
  {
    if s.disp.cores[c].pokes > 0 {
      var id := AboveAll(s.inst.insts.Keys);
      assert Enabled(k, s, RunPoke(c, id));
    }
  }

  lemma RequestsAreBusy(k: Config, s: State)
    requires s.status == Running
    ensures s.requests != multiset{} ==> !Quiescent(k, s)
  {
    if s.requests != multiset{} {
      var m :| m in s.requests;
      assert Enabled(k, s, DeliverRequest(m));
    }
  }

  lemma RepliesAreBusy(k: Config, s: State)
    requires s.status != Asserted
    ensures s.replies != multiset{} ==> !Quiescent(k, s)
  {
    if s.replies != multiset{} {
      var m :| m in s.replies;
      assert Enabled(k, s, DeliverReply(m));
    }
  }

  lemma NoFrames(disp: Dispatcher.State, c: nat)
    requires FramesMatch(disp, map[]) && c < |disp.cores|
    ensures disp.cores[c].frames == map[]
  {
    forall t ensures t !in disp.cores[c].frames {
      assert !Dispatcher.InFrames(disp, t, c);
    }
  }

  /** At rest, unless it crashed, the pipeline holds no message, no frame and no Poke. */
  lemma RestIsEmpty(k: Config, s: State)
    requires s.status == Running && Quiescent(k, s)
    requires SessionsMatch(s.inst.running, s.frames) && FramesMatch(s.disp, s.frames)
    ensures s.requests == multiset{} && s.replies == multiset{} && s.frames == map[]
    ensures Dispatcher.Quiescent(s.disp)
  {
    RequestsAreBusy(k, s);
    RepliesAreBusy(k, s);
    FramesAreBusy(k, s);
    forall c: nat | c < |s.disp.cores| ensures s.disp.cores[c].pokes == 0 && s.disp.cores[c].frames == map[] {
      PokesAreBusy(k, s, c);
      NoFrames(s.disp, c);
    }
  }

  /** Every scheduled activation has been served. */
  ghost predicate Served(s: State) {
    && s.disp.queue.order == [] && s.frames == map[] && s.requests == multiset{}
    && s.disp.finished.Keys == s.scheduled.Keys
  }

  /** No reply is under way, and exactly the answered activations are completed. */
  ghost predicate Settled(s: State) {
    s.replies == multiset{} && forall t :: Controller.Completed(s.ctl, t) <==> t in s.answered
  }

  lemma CompletedWasAnswered(s: State, t: Tid)
    requires RecordsMatch(s.ctl, s.scheduled, s.results) && Controller.Completed(s.ctl, t)
    requires forall p | p in s.results :: p.tid in s.answered
    ensures t in s.answered
  {
    var c :| c in s.ctl.log && c.tid == t;
    assert GoodCompletion(s.scheduled, s.results, c);
    assert Report(c.tid, c.cm.result, c.cm.duration, c.cm.initTime) in s.results;
  }

  lemma AllAccepted(k: Config, scheduled: map<Tid, Activation>, accepted: map<Tid, Invocation>)
    requires RequestsMatch(k, scheduled, multiset{}, accepted)
    ensures accepted.Keys == scheduled.Keys
  {
  }

  lemma RestIsServed(k: Config, s: State)
    requires ValidConfig(k) && Inv(k, s) && Quiescent(k, s) && s.status == Running
    requires k.disp.limit >= 1 && k.disp.cores >= 2
    ensures Served(s)
  {
    RestIsEmpty(k, s);
    AllAccepted(k, s.scheduled, s.disp.accepted);
    Dispatcher.QuiescentIsDrained(k.disp, s.disp);
  }

  lemma DrainedIsSettled(s: State)
    requires s.replies == multiset{}
    requires RepliesMatch(s.replies, s.results, s.answered, s.ctl, s.disp.accepted)
    requires RecordsMatch(s.ctl, s.scheduled, s.results)
    ensures Settled(s)
  {
    forall t ensures Controller.Completed(s.ctl, t) <==> t in s.answered {
      if Controller.Completed(s.ctl, t) {
        CompletedWasAnswered(s, t);
      }
      assert !InFlight(s.replies, t);
    }
  }

  lemma RestIsSettled(k: Config, s: State)
    requires Inv(k, s) && Quiescent(k, s)
    ensures Settled(s)
  {
    RepliesAreBusy(k, s);
    DrainedIsSettled(s);
  }

  /** An undisturbed run that ends at rest. */
  ghost predicate RunsToRest(k: Config, s: State, es: seq<Event>) {
    IsRun(k, s, es) && Undisturbed(k, s, es) && Quiescent(k, After(k, s, es))
  }

  lemma NextEvent(k: Config, s: State) returns (e: Event)
    requires ValidConfig(k) && Inv(k, s) && !Quiescent(k, s)
    ensures Enabled(k, s, e) && !e.Schedule? && Expected(s, e)
    ensures Inv(k, Step(k, s, e)) && Total(k, Step(k, s, e)) < Total(k, s)
  {
    hide Step, Total, Dispatcher.Inv, Instances.Inv, RepliesMatch, RecordsMatch, RequestsMatch, FramesMatch;
    e :| Enabled(k, s, e) && !e.Schedule? && !e.Capture?;
    if e.SessionEvent? {
      e := FramesMove(k, s, e.tid);
    }
    StepUses(k, s, e);
    StepInv(k, s, e);
  }

  lemma MoveToRest(k: Config, s: State, e: Event, rest: seq<Event>) returns (es: seq<Event>)
    requires Enabled(k, s, e) && !e.Schedule? && Expected(s, e) && RunsToRest(k, Step(k, s, e), rest)
    ensures RunsToRest(k, s, es)
  {
    hide Step, Enabled, Expected, Quiescent;
    es := Prepend(k, s, e, rest);
    assert es[1..] == rest;
  }

  /** From every reachable state the pipeline comes to rest by itself. */
  lemma {:induction false} ComesToRest(k: Config, s: State) returns (es: seq<Event>)
    requires ValidConfig(k) && Inv(k, s)
    ensures RunsToRest(k, s, es)
    decreases Total(k, s)
  {
    hide Step, Enabled, Inv, Expected, Quiescent, Total;
    es := [];
    if !Quiescent(k, s) {
      var e := NextEvent(k, s);
      var rest := ComesToRest(k, Step(k, s, e));
      es := MoveToRest(k, s, e, rest);
    }
  }

  /** Every run that ends at rest has completed exactly what was answered, also when the node went
      down, and has served everything that was scheduled if the node did not. */
  lemma MaximalRunsServe(k: Config, es: seq<Event>)
    requires ValidConfig(k) && IsRun(k, Init(k), es) && Quiescent(k, After(k, Init(k), es))
    ensures Settled(After(k, Init(k), es))
    ensures After(k, Init(k), es).status == Running && k.disp.limit >= 1 && k.disp.cores >= 2 ==>
      Served(After(k, Init(k), es))
  {
    hide Inv, Quiescent, Settled, Served;
    Reachable(k, es);
    var s := After(k, Init(k), es);
    RestIsSettled(k, s);
    if s.status == Running && k.disp.limit >= 1 && k.disp.cores >= 2 {
      RestIsServed(k, s);
    }
  }

  // ---- Exactly once ----

  /** An instance closes the connection only after it answered. */
  ghost predicate ClosesAnswered(k: Config, s: State, es: seq<Event>)
    requires IsRun(k, s, es)
    decreases |es|
  {
    es == [] || (
      && (es[0].SessionEvent? && es[0].e.EClose? ==> s.frames[es[0].tid].session.h.setExecuted > 0)
      && ClosesAnswered(k, Step(k, s, es[0]), es[1..]))
  }

  ghost predicate FrameAnswered(answered: set<Tid>, t: Tid, fr: Frame) {
    fr.session.h.setExecuted > 0 || Closing(fr.session.h) ==> t in answered
  }

  /** Whatever closed or returned was answered. */
  ghost predicate AnsweredFirst(s: State) {
    && (forall t | t in s.frames :: FrameAnswered(s.answered, t, s.frames[t]))
    && (forall t | t in s.disp.finished :: t in s.answered)
  }

  lemma InitAnswered(k: Config)
    ensures AnsweredFirst(Init(k))
  {
  }

  predicate Closing(h: Session.Handler) {
    h.spawnedClosed + h.setClosed > 0
  }

  lemma SettledAnswered(k: Config, s: State, t: Tid, x: Session.Session, now: nat)
    requires AnsweredFirst(s) && t in s.frames
    requires Closing(x.h) ==> s.frames[t].session.h.setExecuted > 0 || Closing(s.frames[t].session.h)
    ensures AnsweredFirst(Settle(k, s, t, x, now))
  {
    SettleFields(k, s, t, x, now);
    SettleResults(k, s, t, x, now);
    assert FrameAnswered(s.answered, t, s.frames[t]);
  }

  lemma LocalLeavesClosing(x: Session.Session, e: Session.Event)
    requires Session.Enabled(x, e) && (e.ERunConnected? || e.ERunClosed? || e.ERunAborted?)
    ensures Closing(Session.Step(x, e).h) == Closing(x.h)
  {
  }

  lemma CallbackLeavesClosing(x: Session.Session, e: Session.Event)
    requires Session.Enabled(x, e) && (e.EConnect? || e.EConnected? || e.EAbort? || e.EFire?)
    ensures Closing(Session.Step(x, e).h) == Closing(x.h)
  {
  }

  lemma ClosingNeedsClose(x: Session.Session, e: Session.Event)
    requires Session.Enabled(x, e) && !e.EClose?
    ensures Closing(Session.Step(x, e).h) == Closing(x.h)
  {
    hide Session.Receive;
    if e.EReceive? {
      Session.ReceiveFields(x.h, e.raw, e.now);
    } else if e.ERunConnected? || e.ERunClosed? || e.ERunAborted? {
      LocalLeavesClosing(x, e);
    } else {
      CallbackLeavesClosing(x, e);
    }
  }

  lemma SessionAnswered(k: Config, s: State, t: Tid, e: Session.Event)
    requires ValidConfig(k) && Inv(k, s) && Enabled(k, s, SessionEvent(t, e)) && AnsweredFirst(s)
    requires e.EClose? ==> s.frames[t].session.h.setExecuted > 0
    ensures AnsweredFirst(Step(k, s, SessionEvent(t, e)))
  {
    hide Inv, Step, Settle, Session.Step, SendsEmpty, FrameAnswered, Closing;
    PipelineTheorems.OwnSession(k, s, t);
    SessionEventStep(k, s, t, e);
    if !SendsEmpty(s, t, e) {
      if !e.EClose? {
        ClosingNeedsClose(s.frames[t].session, e);
      }
      SettledAnswered(k, s, t, Session.Step(s.frames[t].session, e), Time(e));
    }
  }

  lemma AttemptAnswered(k: Config, s: State, core: nat, inv: Invocation, from: Instances.Kind, id: Id)
    requires AnsweredFirst(s) && core < |s.inst.hot| && inv.info.functionId != 0
    requires inv.info.transactionId !in s.inst.running && Fresh(s, id)
    ensures AnsweredFirst(Attempt(k, s, core, inv, from, id))
  {
    var s' := Attempt(k, s, core, inv, from, id);
    assert s'.disp == s.disp && s'.answered == s.answered;
  }

  lemma PokedAnswered(k: Config, s: State, core: nat)
    requires AnsweredFirst(s) && Dispatcher.Enabled(k.disp, s.disp, Dispatcher.Poke(core))
    ensures AnsweredFirst(DispStep(k, s, Dispatcher.Poke(core)))
    ensures DispStep(k, s, Dispatcher.Poke(core)).inst == s.inst
  {
  }

  lemma PokeAnswered(k: Config, s: State, core: nat, id: Id)
    requires ValidConfig(k) && Inv(k, s) && Enabled(k, s, RunPoke(core, id)) && AnsweredFirst(s)
    ensures AnsweredFirst(Step(k, s, RunPoke(core, id)))
  {
    var s1 := DispStep(k, s, Dispatcher.Poke(core));
    PokedAnswered(k, s, core);
    if Dispatcher.Dispatches(k.disp, s.disp, core) {
      WorkQueue.TakeServesOldest(s.disp.queue);
      var t := s.disp.queue.order[0];
      QueuedFacts(k, s, t);
      AttemptAnswered(k, s1, core, s.disp.queue.table[t], Instances.Hot, id);
    }
  }

  lemma ReturnAnswered(k: Config, s: State, t: Tid, id: Id)
    requires ValidConfig(k) && Inv(k, s) && Enabled(k, s, Resume(t, id)) && AnsweredFirst(s)
    requires s.frames[t].session.h.finishedOk
    ensures AnsweredFirst(Step(k, s, Resume(t, id)))
  {
    PipelineTheorems.OwnSession(k, s, t);
    FinishFrames(k, s.disp, s.frames, t);
    assert FrameAnswered(s.answered, t, s.frames[t]);
  }

  lemma RetryAnswered(k: Config, s: State, t: Tid, from: Instances.Kind, id: Id)
    requires ValidConfig(k) && Inv(k, s) && Enabled(k, s, Resume(t, id)) && AnsweredFirst(s)
    ensures AnsweredFirst(Attempt(k, s, s.frames[t].core, s.frames[t].inv, from, id))
  {
    FrameFacts(k, s, t);
    FinishSessions(s.inst.running, s.frames, t);
    assert s.frames[t].core < |s.inst.hot|;
    AttemptAnswered(k, s, s.frames[t].core, s.frames[t].inv, from, id);
  }

  lemma ResumeAnswered(k: Config, s: State, t: Tid, id: Id)
    requires ValidConfig(k) && Inv(k, s) && Enabled(k, s, Resume(t, id)) && AnsweredFirst(s)
    ensures AnsweredFirst(Step(k, s, Resume(t, id)))
  {
    if s.frames[t].session.h.finishedOk {
      ReturnAnswered(k, s, t, id);
    } else {
      match s.frames[t].kind
      case Hot => RetryAnswered(k, s, t, Instances.Warm, id);
      case Warm => RetryAnswered(k, s, t, Instances.Cold, id);
      case Cold =>
    }
  }

  lemma LoadAnswered(k: Config, s: State, t: Tid)
    requires Enabled(k, s, LoadDone(t)) && AnsweredFirst(s)
    ensures AnsweredFirst(Step(k, s, LoadDone(t)))
  {
    assert FrameAnswered(s.answered, t, s.frames[t]);
  }

  /** What decides whether answers came first is left alone. */
  predicate SameAnswers(s: State, s': State) {
    s'.frames == s.frames && s'.answered == s.answered && s'.disp.finished == s.disp.finished
  }

  lemma SameAnswered(s: State, s': State)
    requires AnsweredFirst(s) && SameAnswers(s, s')
    ensures AnsweredFirst(s')
  {
  }

  lemma AddWorkLeaves(k: Config, s: State, inv: Invocation)
    ensures SameAnswers(s, DispStep(k, s, Dispatcher.AddWork(inv)))
  {
  }

  lemma RequestLeaves(k: Config, s: State, m: Wire.Message)
    requires Enabled(k, s, DeliverRequest(m))
    ensures SameAnswers(s, Step(k, s, DeliverRequest(m)))
  {
    hide DispStep, Wire.Deliver;
    if m.header.len <= |m.payload| && Wire.Deliver(true, m).Queue? {
      AddWorkLeaves(k, s.(requests := s.requests - multiset{m}), Wire.Deliver(true, m).inv);
    }
  }

  lemma ScheduleLeaves(k: Config, s: State, am: ActivationMessage, code: string, start: nat)
    requires Enabled(k, s, Schedule(am, code, start))
    ensures SameAnswers(s, Step(k, s, Schedule(am, code, start)))
  {
  }

  lemma ReplyLeaves(k: Config, s: State, m: Wire.Message)
    requires Enabled(k, s, DeliverReply(m))
    ensures SameAnswers(s, Step(k, s, DeliverReply(m)))
  {
    hide Wire.Deliver, Controller.Resolve;
  }

  lemma InstanceLeaves(k: Config, s: State, e: Event)
    requires Enabled(k, s, e) && (e.Capture? || e.RunHalt?)
    ensures SameAnswers(s, Step(k, s, e))
  {
    hide InstStep, Instances.Enabled;
    InstStepFrame(k, s, if e.Capture? then Instances.Capture(e.id, e.sv) else Instances.RunHalt(e.id));
  }

  lemma OtherAnswered(k: Config, s: State, e: Event)
    requires Enabled(k, s, e) && AnsweredFirst(s)
    requires !e.SessionEvent? && !e.RunPoke? && !e.Resume?
    ensures AnsweredFirst(Step(k, s, e))
  {
    hide Step, AnsweredFirst, SameAnswers;
    if e.LoadDone? {
      LoadAnswered(k, s, e.tid);
    } else {
      if e.Schedule? {
        ScheduleLeaves(k, s, e.am, e.code, e.start);
      } else if e.DeliverRequest? {
        RequestLeaves(k, s, e.m);
      } else if e.DeliverReply? {
        ReplyLeaves(k, s, e.m);
      } else {
        InstanceLeaves(k, s, e);
      }
      SameAnswered(s, Step(k, s, e));
    }
  }

  lemma StepAnswered(k: Config, s: State, e: Event)
    requires ValidConfig(k) && Inv(k, s) && Enabled(k, s, e) && AnsweredFirst(s)
    requires e.SessionEvent? && e.e.EClose? ==> s.frames[e.tid].session.h.setExecuted > 0
    ensures AnsweredFirst(Step(k, s, e))
  {
    match e
    case SessionEvent(t, se) => SessionAnswered(k, s, t, se);
    case RunPoke(core, id) => PokeAnswered(k, s, core, id);
    case Resume(t, id) => ResumeAnswered(k, s, t, id);
    case _ => OtherAnswered(k, s, e);
  }

  lemma {:induction false} RunAnswered(k: Config, s: State, es: seq<Event>)
    requires ValidConfig(k) && Inv(k, s) && AnsweredFirst(s) && IsRun(k, s, es) && ClosesAnswered(k, s, es)
    ensures AnsweredFirst(After(k, s, es))
    decreases |es|
  {
    if es != [] {
      StepInv(k, s, es[0]);
      StepAnswered(k, s, es[0]);
      RunAnswered(k, Step(k, s, es[0]), es[1..]);
    }
  }

  /** If instances close only after answering, then at any time every invocation that returned is
      completed or has its reply under way. So once the replies are drained, and surely at rest, all
      that returned are completed, also when the node went down; and if it did not, then at rest every
      scheduled activation is. No activation is completed twice. */
  lemma ExactlyOnce(k: Config, es: seq<Event>)
    requires ValidConfig(k) && IsRun(k, Init(k), es) && ClosesAnswered(k, Init(k), es)
    ensures var s := After(k, Init(k), es);
      && (forall i, j | 0 <= i < j < |s.ctl.log| :: s.ctl.log[i].tid != s.ctl.log[j].tid)
      && (forall t | t in s.disp.finished :: Controller.Completed(s.ctl, t) || InFlight(s.replies, t))
      && (s.replies == multiset{} || Quiescent(k, s) ==>
            forall t | t in s.disp.finished :: Controller.Completed(s.ctl, t))
      && (Quiescent(k, s) && s.status == Running && k.disp.limit >= 1 && k.disp.cores >= 2 ==>
            forall t | t in s.scheduled :: Controller.Completed(s.ctl, t))
  {
    Reachable(k, es);
    InitInv(k);
    InitAnswered(k);
    RunAnswered(k, Init(k), es);
    ReturnedIsCompleted(k, After(k, Init(k), es));
  }

  lemma ReturnedIsCompleted(k: Config, s: State)
    requires ValidConfig(k) && Inv(k, s) && AnsweredFirst(s)
    ensures s.replies == multiset{} || Quiescent(k, s) ==>
      forall t | t in s.disp.finished :: Controller.Completed(s.ctl, t)
    ensures Quiescent(k, s) && s.status == Running && k.disp.limit >= 1 && k.disp.cores >= 2 ==>
      forall t | t in s.scheduled :: Controller.Completed(s.ctl, t)
  {
    hide Quiescent, Dispatcher.Inv, Instances.Inv, FramesMatch, SessionsMatch, RequestsMatch;
    if Quiescent(k, s) {
      RestIsSettled(k, s);
      if s.status == Running && k.disp.limit >= 1 && k.disp.cores >= 2 {
        RestIsServed(k, s);
        assert forall t | t in s.scheduled :: t in s.disp.finished.Keys;
      }
    } else if s.replies == multiset{} {
      DrainedIsSettled(s);
    }
  }
}
