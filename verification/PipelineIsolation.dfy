/** Function isolation from end to end: which activations may ever share an instance or a snapshot. */
module PipelineIsolation {
  import opened Seuss
  import opened Pipeline
  import PipelineTheorems
  import Controller
  import Dispatcher
  import Instances
  import Session
  import Wire

  /** The session of `t` owns an instance that was started for the hash of the revision of the activation
      of `t`; if it was booted from a cached snapshot, that was captured from this function too. */
  ghost predicate RunsItsFunction(k: Config, s: State, t: Tid) {
    && t in s.inst.running && t in s.scheduled
    && var id, f := s.inst.running[t].id, k.hash(s.scheduled[t].am.revision);
       && id in s.inst.insts && s.inst.insts[id].fn == f
       && (id in s.inst.image ==>
             s.inst.image[id] in s.inst.store.origin && s.inst.store.origin[s.inst.image[id]] == f)
  }

  lemma RunHasFrame(k: Config, s: State, t: Tid)
    requires Inv(k, s) && t in s.inst.running
    ensures t in s.scheduled && s.inst.running[t].fid == k.hash(s.scheduled[t].am.revision)
  {
    hide Instances.Inv, RepliesMatch, RecordsMatch;
    assert SessionMatches(s.inst.running, t, s.frames[t]);
    FrameFacts(k, s, t);
    FunctionOf(k, s.scheduled[t]);
  }

  lemma FunctionOf(k: Config, a: Activation)
    ensures InvocationOf(k, a).info.functionId == k.hash(a.am.revision)
    ensures InvocationOf(k, a).info.transactionId == k.hash(a.am.transid)
  {
  }

  lemma OwnsItsInstance(k: Config, inst: Instances.State, t: Tid)
    requires Instances.Inv(Inst(k), inst) && t in inst.running
    ensures var id := inst.running[t].id;
      && id in inst.insts && inst.insts[id].fn == inst.running[t].fid
      && (id in inst.image ==>
            inst.image[id] in inst.store.origin && inst.store.origin[inst.image[id]] == inst.insts[id].fn)
  {
    hide Instances.CachesOk, Instances.CountsAtHome, Instances.CachesOwn, Instances.HaltsOnce, Instances.Isolated;
    assert Instances.IsAt(inst, inst.running[t].id, Instances.InSession(t),
                          Instances.Instance(inst.running[t].fid, inst.running[t].core));
  }

  lemma RunsFit(k: Config, s: State, t: Tid)
    requires Inv(k, s) && t in s.inst.running
    ensures RunsItsFunction(k, s, t)
  {
    RunHasFrame(k, s, t);
    InstancesOk(k, s);
    hide Inv, Instances.Inv;
    OwnsItsInstance(k, s.inst, t);
  }

  lemma InstancesOk(k: Config, s: State)
    requires Inv(k, s)
    ensures Instances.Inv(Inst(k), s.inst) && Instances.ImagesOwn(s.inst)
  {
    hide Instances.Kept, Instances.CountsAtHome;
  }

  /** In every run every session has an instance of its own activation's function. */
  lemma SessionsRunTheirFunction(k: Config, es: seq<Event>, t: Tid)
    requires ValidConfig(k) && IsRun(k, Init(k), es) && t in After(k, Init(k), es).inst.running
    ensures RunsItsFunction(k, After(k, Init(k), es), t)
  {
    hide Inv, RunsItsFunction;
    Reachable(k, es);
    RunsFit(k, After(k, Init(k), es), t);
  }

  // ---- The history persists ----

  ghost predicate Persists(s: State, s': State) {
    && (forall t | t in s.scheduled :: t in s'.scheduled && s'.scheduled[t] == s.scheduled[t])
    && Instances.Grows(s.inst, s'.inst)
  }

  lemma InstStepGrows(k: Config, s: State, e: Instances.Event)
    requires Instances.ImagesOwn(s.inst)
    ensures Instances.Grows(s.inst, InstStep(k, s, e).inst)
  {
    hide Instances.Step, Instances.ImagesOwn;
    if CanStep(k, s.inst, e) {
      Instances.StepGrows(Inst(k), s.inst, e);
    }
  }

  lemma AttemptGrows(k: Config, s: State, core: nat, inv: Invocation, from: Instances.Kind, id: Id)
    requires Instances.ImagesOwn(s.inst)
    ensures Instances.Grows(s.inst, Attempt(k, s, core, inv, from, id).inst)
  {
    hide InstStep, Instances.Resolve, NewFrame, Instances.ImagesOwn;
    InstStepGrows(k, s, Instances.Start(inv.info.transactionId, core, inv.info.functionId, from, id));
  }

  lemma SettleGrows(k: Config, s: State, t: Tid, x: Session.Session, now: nat)
    requires Instances.ImagesOwn(s.inst) && t in s.frames
    ensures Instances.Grows(s.inst, Settle(k, s, t, x, now).inst)
  {
    hide InstStep, ReportResult, Instances.ImagesOwn;
    if x.h.setFinished > s.frames[t].session.h.setFinished {
      SettleEnd(k, s, t, x, now);
      var s1 := s.(frames := s.frames[t := s.frames[t].(session := x)]);
      ReportLeavesInst(s1, t, s.frames[t], x.h, now);
      InstStepGrows(k, if x.h.setExecuted > s.frames[t].session.h.setExecuted
                       then ReportResult(s1, t, s.frames[t], x.h, now) else s1,
                    Instances.End(t, x.h.finishedOk));
    } else {
      SettleInst(k, s, t, x, now);
    }
  }

  lemma ReportLeavesInst(s: State, t: Tid, fr: Frame, h: Session.Handler, now: nat)
    ensures ReportResult(s, t, fr, h, now).inst == s.inst
  {
  }

  lemma PokeGrows(k: Config, s: State, core: nat, id: Id)
    requires Enabled(k, s, RunPoke(core, id)) && Instances.ImagesOwn(s.inst)
    ensures Instances.Grows(s.inst, Step(k, s, RunPoke(core, id)).inst)
  {
    hide Attempt, Dispatcher.Step, Instances.ImagesOwn;
    if Dispatcher.Dispatches(k.disp, s.disp, core) && s.disp.queue.order[0] in s.disp.queue.table {
      AttemptGrows(k, DispStep(k, s, Dispatcher.Poke(core)), core, s.disp.queue.table[s.disp.queue.order[0]],
                   Instances.Hot, id);
    }
  }

  lemma ResumeGrows(k: Config, s: State, t: Tid, id: Id)
    requires Enabled(k, s, Resume(t, id)) && Instances.ImagesOwn(s.inst)
    ensures Instances.Grows(s.inst, Step(k, s, Resume(t, id)).inst)
  {
    hide Attempt, Dispatcher.Step, Instances.ImagesOwn;
    if !s.frames[t].session.h.finishedOk {
      ResumeStep(k, s, t, id);
      AttemptGrows(k, s, s.frames[t].core, s.frames[t].inv, Instances.Warm, id);
      AttemptGrows(k, s, s.frames[t].core, s.frames[t].inv, Instances.Cold, id);
    }
  }

  lemma SessionGrows(k: Config, s: State, t: Tid, e: Session.Event)
    requires Inv(k, s) && Enabled(k, s, SessionEvent(t, e))
    ensures Instances.Grows(s.inst, Step(k, s, SessionEvent(t, e)).inst)
  {
    hide Step, Settle, SendsEmpty, Session.Step, Dispatcher.Inv, Instances.Inv, FramesMatch, SessionsMatch;
    hide RequestsMatch, RepliesMatch, RecordsMatch, Instances.ImagesOwn;
    InstancesOk(k, s);
    SessionIsOk(s.inst.running, s.frames, t);
    SessionEventStep(k, s, t, e);
    SettleGrows(k, s, t, Session.Step(s.frames[t].session, e), Time(e));
  }

  lemma InstanceEventGrows(k: Config, s: State, e: Event)
    requires Instances.ImagesOwn(s.inst) && Enabled(k, s, e) && (e.Capture? || e.RunHalt?)
    ensures Instances.Grows(s.inst, Step(k, s, e).inst)
  {
    hide InstStep, Instances.ImagesOwn;
    InstStepGrows(k, s, if e.Capture? then Instances.Capture(e.id, e.sv) else Instances.RunHalt(e.id));
  }

  lemma OthersKeepInst(k: Config, s: State, e: Event)
    requires Inv(k, s) && Enabled(k, s, e) && (OnController(e) || e.DeliverRequest? || e.LoadDone?)
    ensures Step(k, s, e).inst == s.inst
  {
    hide Dispatcher.Inv, Instances.Inv, FramesMatch, SessionsMatch, RequestsMatch, Wire.Deliver, Dispatcher.Step;
    if e.DeliverReply? {
      DeliverReplyStep(k, s, e.m);
    }
  }

  lemma StepGrows(k: Config, s: State, e: Event)
    requires Inv(k, s) && Enabled(k, s, e)
    ensures Instances.Grows(s.inst, Step(k, s, e).inst)
  {
    InstancesOk(k, s);
    hide Inv, Step, Instances.ImagesOwn, Instances.Grows;
    match e
    case RunPoke(core, id) => PokeGrows(k, s, core, id);
    case SessionEvent(t, se) => SessionGrows(k, s, t, se);
    case Resume(t, id) => ResumeGrows(k, s, t, id);
    case Capture(id, sv) => InstanceEventGrows(k, s, e);
    case RunHalt(id) => InstanceEventGrows(k, s, e);
    case _ =>
      OthersKeepInst(k, s, e);
      SameGrows(s.inst);
  }

  lemma SameGrows(inst: Instances.State)
    ensures Instances.Grows(inst, inst)
  {
  }

  lemma StepPersists(k: Config, s: State, e: Event)
    requires Inv(k, s) && Enabled(k, s, e)
    ensures Persists(s, Step(k, s, e))
  {
    hide Inv, Step, Instances.Grows;
    ScheduledAfter(k, s, e);
    NewIsNew(k, s, e);
    StepGrows(k, s, e);
  }

  lemma NewIsNew(k: Config, s: State, e: Event)
    requires Enabled(k, s, e)
    ensures e.Schedule? ==> k.hash(e.am.transid) !in s.scheduled
  {
  }

  lemma {:induction false} RunPersists(k: Config, s: State, es: seq<Event>)
    requires ValidConfig(k) && Inv(k, s) && IsRun(k, s, es)
    ensures Inv(k, After(k, s, es)) && Persists(s, After(k, s, es))
    decreases |es|
  {
    hide Inv, Step, Enabled;
    if es != [] {
      StepInv(k, s, es[0]);
      StepPersists(k, s, es[0]);
      RunPersists(k, Step(k, s, es[0]), es[1..]);
    }
  }

  /** Two activations with different revision hashes never share an instance or a snapshot, neither at one
      time nor at two: `t` runs after `es`, `u` after `later` as well. */
  lemma FunctionsStayApart(k: Config, es: seq<Event>, later: seq<Event>, t: Tid, u: Tid)
    requires ValidConfig(k) && IsRun(k, Init(k), es) && IsRun(k, After(k, Init(k), es), later)
    requires t in After(k, Init(k), es).inst.running
    requires u in After(k, After(k, Init(k), es), later).inst.running
    ensures var s := After(k, Init(k), es); var s' := After(k, s, later);
      && t in s.scheduled && u in s'.scheduled
      && (k.hash(s.scheduled[t].am.revision) != k.hash(s'.scheduled[u].am.revision) ==>
            && s.inst.running[t].id != s'.inst.running[u].id
            && (s.inst.running[t].id in s.inst.image && s'.inst.running[u].id in s'.inst.image ==>
                  s.inst.image[s.inst.running[t].id] != s'.inst.image[s'.inst.running[u].id]))
  {
    hide Inv, Step, Enabled;
    Reachable(k, es);
    var s := After(k, Init(k), es);
    RunPersists(k, s, later);
    RunsFit(k, s, t);
    RunsFit(k, After(k, s, later), u);
  }

  // ---- Sessions ----

  /** The session of every frame has come through a run of the session machine, so what is proved about those
      runs holds for it. */
  lemma SessionsAreRuns(k: Config, es: seq<Event>, t: Tid) returns (run: seq<Session.Event>)
    requires ValidConfig(k) && IsRun(k, Init(k), es) && t in After(k, Init(k), es).frames
    ensures var s := After(k, Init(k), es); var h := s.frames[t].session.h;
      && t in s.scheduled && h.args == s.scheduled[t].am.content
      && h.code == (if s.frames[t].kind.Cold? then s.scheduled[t].code else "")
      && Session.IsRun(Session.Init(h.args, h.code), run)
      && Session.After(Session.Init(h.args, h.code), run) == s.frames[t].session
  {
    hide Dispatcher.Inv, Instances.Inv, RepliesMatch, RecordsMatch, Step, Enabled;
    Reachable(k, es);
    var s := After(k, Init(k), es);
    assert SessionMatches(s.inst.running, t, s.frames[t]);
    PipelineTheorems.OwnSession(k, s, t);
    var h := s.frames[t].session.h;
    run :| Session.IsRun(Session.Init(h.args, h.code), run)
      && Session.After(Session.Init(h.args, h.code), run) == s.frames[t].session;
  }
}
