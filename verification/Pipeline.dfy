/** The whole path of an activation: controller, wire, dispatcher, hot/warm/cold attempts with
    their sessions, reply and completion. The state is the product of the component machines; an
    event is one atomic stretch of the source on one core, or one message delivery.

    The node goes down when the attempts at a request run out (`Failed`) and when a session is to
    send a request without payload (`EmptyPayload`, an assertion of the source); the controller, on
    another machine, goes on. Any other failed assertion stops everything with status `Asserted`,
    which is proved unreachable. */
module Pipeline {
  import opened Seuss
  import WorkQueue
  import Dispatcher
  import Instances
  import HotCache
  import Session
  import Wire
  import Controller

  datatype Config = Config(disp: Dispatcher.Config, limits: HotCache.Limits, hash: string -> nat)

  function Inst(k: Config): Instances.Config {
    Instances.Config(k.disp.cores, k.limits)
  }

  ghost predicate ValidConfig(k: Config) {
    Dispatcher.ValidConfig(k.disp) && Instances.ValidConfig(Inst(k))
  }

  datatype Status = Running | Failed(tid: Tid) | EmptyPayload(tid: Tid) | Asserted

  /** A live `Invoke`: the attempt it is in and that attempt's session. `loaded` says that the
      instance is loaded, so that the session may connect. */
  datatype Frame = Frame(core: nat, inv: Invocation, kind: Instances.Kind, loaded: bool, session: Session.Session)

  datatype Activation = Activation(am: ActivationMessage, code: string)

  /** `scheduled`, `results` and `answered` are history: what was scheduled, what results sessions
      produced for which transaction, and for which transactions at least one. */
  datatype State = State(
    ctl: Controller.State,
    requests: multiset<Wire.Message>,
    disp: Dispatcher.State,
    inst: Instances.State,
    frames: map<Tid, Frame>,
    replies: multiset<Wire.Message>,
    status: Status,
    scheduled: map<Tid, Activation>,
    results: set<Report>,
    answered: set<Tid>)

  datatype Event =
    | Schedule(am: ActivationMessage, code: string, start: nat)
    | DeliverRequest(m: Wire.Message)
    | RunPoke(core: nat, id: Id)
    | LoadDone(tid: Tid)
    | SessionEvent(tid: Tid, e: Session.Event)
    | Resume(tid: Tid, id: Id)
    | Capture(id: Id, sv: Snap)
    | RunHalt(id: Id)
    | DeliverReply(m: Wire.Message)

  function Init(k: Config): State {
    State(Controller.State(map[], []), multiset{}, Dispatcher.Init(k.disp), Instances.Init(Inst(k)),
          map[], multiset{}, Running, map[], {}, {})
  }

  predicate Fresh(s: State, id: Id) {
    id != 0 && id !in s.inst.insts
  }

  /** The session of `t` would send a request without payload. */
  predicate SendsEmpty(s: State, t: Tid, e: Session.Event)
    requires t in s.frames && Session.Enabled(s.frames[t].session, e)
  {
    Session.SendsEmpty(s.frames[t].session.h, Session.Step(s.frames[t].session, e).h)
  }

  predicate OnController(e: Event) {
    e.Schedule? || e.DeliverReply?
  }

  /** What the environment allows: transaction ids are new, function ids are not null, new instances
      get fresh ids. Nothing here restricts the system itself. */
  predicate Enabled(k: Config, s: State, e: Event) {
    && (s.status == Running || (s.status != Asserted && OnController(e)))
    && match e
       case Schedule(am, code, start) => k.hash(am.transid) !in s.scheduled && k.hash(am.revision) != 0
       case DeliverRequest(m) => m in s.requests
       case RunPoke(core, id) => Dispatcher.Enabled(k.disp, s.disp, Dispatcher.Poke(core)) && Fresh(s, id)
       case LoadDone(t) => t in s.frames && !s.frames[t].loaded
       case SessionEvent(t, e) => t in s.frames && s.frames[t].loaded && Session.Enabled(s.frames[t].session, e)
       case Resume(t, id) => t in s.frames && s.frames[t].session.h.setFinished > 0 && Fresh(s, id)
       case Capture(id, sv) => Instances.Enabled(Inst(k), s.inst, Instances.Capture(id, sv))
       case RunHalt(id) => Instances.Enabled(Inst(k), s.inst, Instances.RunHalt(id))
       case DeliverReply(m) => m in s.replies
  }

  function DispStep(k: Config, s: State, e: Dispatcher.Event): State {
    if Dispatcher.Enabled(k.disp, s.disp, e) then s.(disp := Dispatcher.Step(k.disp, s.disp, e))
    else s.(status := Asserted)
  }

  predicate CanStep(k: Config, inst: Instances.State, e: Instances.Event) {
    Instances.Enabled(Inst(k), inst, e) && Instances.AssertionsPass(Inst(k), inst, e)
  }

  function InstStep(k: Config, s: State, e: Instances.Event): State {
    if CanStep(k, s.inst, e) then s.(inst := Instances.Step(Inst(k), s.inst, e))
    else s.(status := Asserted)
  }

  /** `code` is only handed to a session that boots from the base snapshot. */
  function NewFrame(core: nat, inv: Invocation, kind: Instances.Kind): Frame {
    Frame(core, inv, kind, kind.Hot?, Session.Init(inv.args, if kind.Cold? then inv.code else ""))
  }

  /** One of hot, warm, cold, tried in this order from `from` on. */
  function Attempt(k: Config, s: State, core: nat, inv: Invocation, from: Instances.Kind, id: Id): State {
    var t := inv.info.transactionId;
    if core < |s.inst.hot| then
      var kind := Instances.Resolve(Inst(k), s.inst, core, inv.info.functionId, from);
      InstStep(k, s, Instances.Start(t, core, inv.info.functionId, from, id))
        .(frames := s.frames[t := NewFrame(core, inv, kind)])
    else s.(status := Asserted)
  }

  /** The statistics a session sends with its result; warm starts report an init time of 1. */
  function ReplyStats(fr: Frame, h: Session.Handler, now: nat): InvocationStats {
    fr.inv.info.(exec := ExecStats(
      Session.Millis(h.runStart, now),
      if h.isInitialized then h.initTime else if fr.kind.Warm? then 1 else fr.inv.info.exec.initTime,
      false))
  }

  function ReportResult(s: State, t: Tid, fr: Frame, h: Session.Handler, now: nat): State {
    var stats := ReplyStats(fr, h, now);
    s.(replies := s.replies + multiset{Wire.EncodeReply(stats, h.reply)},
       results := s.results + {Report(t, h.reply, stats.exec.runTime, stats.exec.initTime)},
       answered := s.answered + {t})
  }

  /** The session of `t` moved on to `x`: a new result is sent off, and when the session finished
      its instance is kept or halted. */
  function Settle(k: Config, s: State, t: Tid, x: Session.Session, now: nat): State
    requires t in s.frames
  {
    var fr := s.frames[t];
    var s1 := s.(frames := s.frames[t := fr.(session := x)]);
    var s2 := if x.h.setExecuted > fr.session.h.setExecuted then ReportResult(s1, t, fr, x.h, now) else s1;
    if x.h.setFinished > fr.session.h.setFinished
    then InstStep(k, s2, Instances.End(t, x.h.finishedOk)) else s2
  }

  /** When an answer comes in; other session events take no time. */
  function Time(e: Session.Event): nat {
    if e.EReceive? then e.now else 0
  }

  function Step(k: Config, s: State, e: Event): State
    requires Enabled(k, s, e)
  {
    match e
    case Schedule(am, code, start) =>
      var t := k.hash(am.transid);
      if t in s.ctl.records then s.(status := Asserted) else
      s.(ctl := Controller.Schedule(s.ctl, t, am, start),
         requests := s.requests + multiset{Wire.EncodeRequest(Controller.StatsOf(k.hash, am), am.content, code)},
         scheduled := s.scheduled[t := Activation(am, code)])
    case DeliverRequest(m) =>
      var s1 := s.(requests := s.requests - multiset{m});
      if m.header.len > |m.payload| then s.(status := Asserted) else
      (match Wire.Deliver(true, m)
       case Queue(inv) => DispStep(k, s1, Dispatcher.AddWork(inv))
       case _ => s.(status := Asserted))
    case RunPoke(core, id) =>
      var s1 := DispStep(k, s, Dispatcher.Poke(core));
      if !Dispatcher.Dispatches(k.disp, s.disp, core) then s1
      else if s.disp.queue.order[0] in s.disp.queue.table then
        Attempt(k, s1, core, s.disp.queue.table[s.disp.queue.order[0]], Instances.Hot, id)
      else s.(status := Asserted)
    case LoadDone(t) =>
      s.(frames := s.frames[t := s.frames[t].(loaded := true)])
    case SessionEvent(t, e) =>
      if e.EConnect? && s.frames[t].session.h.isConnected then s.(status := Asserted)
      else if SendsEmpty(s, t, e) then s.(status := EmptyPayload(t))
      else Settle(k, s, t, Session.Step(s.frames[t].session, e), Time(e))
    case Resume(t, id) =>
      var fr := s.frames[t];
      if fr.session.h.finishedOk then
        DispStep(k, s.(frames := s.frames - {t}), Dispatcher.Finish(fr.core, t))
      else (match fr.kind
            case Hot => Attempt(k, s, fr.core, fr.inv, Instances.Warm, id)
            case Warm => Attempt(k, s, fr.core, fr.inv, Instances.Cold, id)
            case Cold => s.(status := Failed(t)))
    case Capture(id, sv) => InstStep(k, s, Instances.Capture(id, sv))
    case RunHalt(id) => InstStep(k, s, Instances.RunHalt(id))
    case DeliverReply(m) =>
      if m.header.len > |m.payload| then s.(status := Asserted) else
      (match Wire.Deliver(false, m)
       case Resolve(stats, result) =>
         s.(replies := s.replies - multiset{m}, ctl := Controller.Resolve(s.ctl, stats, result))
       case _ => s.(status := Asserted))
  }

  // What the building blocks leave alone.

  lemma DispStepFrame(k: Config, s: State, e: Dispatcher.Event)
    ensures var s' := DispStep(k, s, e);
      s' == s.(disp := s'.disp, status := s'.status) && s'.status in {s.status, Asserted}
  {
  }

  lemma InstStepFrame(k: Config, s: State, e: Instances.Event)
    ensures var s' := InstStep(k, s, e);
      s' == s.(inst := s'.inst, status := s'.status) && s'.status in {s.status, Asserted}
  {
  }

  lemma AttemptFrame(k: Config, s: State, core: nat, inv: Invocation, from: Instances.Kind, id: Id)
    ensures var s' := Attempt(k, s, core, inv, from, id);
      s' == s.(inst := s'.inst, frames := s'.frames, status := s'.status) && s'.status in {s.status, Asserted}
  {
  }

  lemma PokeFrame(k: Config, s: State, core: nat, id: Id)
    requires Enabled(k, s, RunPoke(core, id))
    ensures var s' := Step(k, s, RunPoke(core, id));
      s' == s.(disp := s'.disp, inst := s'.inst, frames := s'.frames, status := s'.status)
      && s'.status in {Running, Asserted}
  {
    DispStepFrame(k, s, Dispatcher.Poke(core));
    if Dispatcher.Dispatches(k.disp, s.disp, core) && s.disp.queue.order[0] in s.disp.queue.table {
      var inv := s.disp.queue.table[s.disp.queue.order[0]];
      AttemptFrame(k, DispStep(k, s, Dispatcher.Poke(core)), core, inv, Instances.Hot, id);
    }
  }

  lemma ResumeStep(k: Config, s: State, t: Tid, id: Id)
    requires Enabled(k, s, Resume(t, id)) && !s.frames[t].session.h.finishedOk
    ensures var fr, s' := s.frames[t], Step(k, s, Resume(t, id));
      && (fr.kind.Hot? ==> s' == Attempt(k, s, fr.core, fr.inv, Instances.Warm, id))
      && (fr.kind.Warm? ==> s' == Attempt(k, s, fr.core, fr.inv, Instances.Cold, id))
      && (fr.kind.Cold? ==> s' == s.(status := Failed(t)))
  {
  }

  lemma ResumeFrame(k: Config, s: State, t: Tid, id: Id)
    requires Enabled(k, s, Resume(t, id))
    ensures var s' := Step(k, s, Resume(t, id)); var fr := s.frames[t];
      s' == s.(disp := s'.disp, inst := s'.inst, frames := s'.frames, status := s'.status)
      && (!fr.session.h.finishedOk && fr.kind.Cold? ==> s'.status == Failed(t))
      && (fr.session.h.finishedOk || !fr.kind.Cold? ==> s'.status in {Running, Asserted})
  {
    hide Attempt, Dispatcher.Step, Dispatcher.Enabled, Session.Enabled;
    var fr := s.frames[t];
    if fr.session.h.finishedOk {
      DispStepFrame(k, s.(frames := s.frames - {t}), Dispatcher.Finish(fr.core, t));
    } else {
      AttemptFrame(k, s, fr.core, fr.inv, Instances.Warm, id);
      AttemptFrame(k, s, fr.core, fr.inv, Instances.Cold, id);
    }
  }

  lemma ScheduleStep(k: Config, s: State, am: ActivationMessage, code: string, start: nat)
    requires Enabled(k, s, Schedule(am, code, start)) && k.hash(am.transid) !in s.ctl.records
    ensures var t := k.hash(am.transid); var s' := Step(k, s, Schedule(am, code, start));
      s' == s.(ctl := Controller.Schedule(s.ctl, t, am, start), requests := s'.requests,
               scheduled := s.scheduled[t := Activation(am, code)])
  {
  }

  lemma SessionEventStep(k: Config, s: State, t: Tid, e: Session.Event)
    requires Enabled(k, s, SessionEvent(t, e)) && Session.PromisesOk(s.frames[t].session)
    ensures Step(k, s, SessionEvent(t, e)) ==
      if SendsEmpty(s, t, e) then s.(status := EmptyPayload(t))
      else Settle(k, s, t, Session.Step(s.frames[t].session, e), Time(e))
  {
    hide Settle, SendsEmpty, Session.Step;
  }

  /** Only scheduling, session events and replies touch the controller or the results. */
  lemma Unseen(k: Config, s: State, e: Event)
    requires Enabled(k, s, e) && !e.Schedule? && !e.DeliverReply? && !e.SessionEvent?
    ensures var s' := Step(k, s, e);
      && s'.ctl == s.ctl && s'.scheduled == s.scheduled
      && s'.results == s.results && s'.replies == s.replies && s'.answered == s.answered
      && (!e.Resume? ==> s'.status in {Running, Asserted})
  {
    match e
    case DeliverRequest(m) =>
      if m.header.len <= |m.payload| && Wire.Deliver(true, m).Queue? {
        DispStepFrame(k, s.(requests := s.requests - multiset{m}), Dispatcher.AddWork(Wire.Deliver(true, m).inv));
      }
    case RunPoke(core, id) => PokeFrame(k, s, core, id);
    case Resume(t, id) => ResumeFrame(k, s, t, id);
    case Capture(id, sv) => InstStepFrame(k, s, Instances.Capture(id, sv));
    case RunHalt(id) => InstStepFrame(k, s, Instances.RunHalt(id));
    case LoadDone(t) =>
  }

  ghost predicate IsRun(k: Config, s: State, es: seq<Event>)
    decreases |es|
  {
    es == [] || (Enabled(k, s, es[0]) && IsRun(k, Step(k, s, es[0]), es[1..]))
  }

  ghost function After(k: Config, s: State, es: seq<Event>): State
    requires IsRun(k, s, es)
    decreases |es|
  {
    if es == [] then s else After(k, Step(k, s, es[0]), es[1..])
  }

  lemma Prepend(k: Config, s: State, e: Event, rest: seq<Event>) returns (es: seq<Event>)
    requires Enabled(k, s, e) && IsRun(k, Step(k, s, e), rest)
    ensures es == [e] + rest && IsRun(k, s, es) && After(k, s, es) == After(k, Step(k, s, e), rest)
  {
    hide Enabled, Step;
    es := [e] + rest;
    assert es[1..] == rest;
  }

  // ---- The invariant that ties the components together ----

  /** The invocation that belongs to a scheduled activation. */
  function InvocationOf(k: Config, a: Activation): Invocation {
    Invocation(Controller.StatsOf(k.hash, a.am), a.code, a.am.content)
  }

  function RequestOf(k: Config, a: Activation): Wire.Message {
    Wire.EncodeRequest(Controller.StatsOf(k.hash, a.am), a.am.content, a.code)
  }

  /** The frames of the dispatcher are the frames of the pipeline. */
  ghost predicate FramesMatch(disp: Dispatcher.State, frames: map<Tid, Frame>) {
    && (forall t, c: nat :: Dispatcher.InFrames(disp, t, c) <==> t in frames && frames[t].core == c)
    && (forall t, c: nat | Dispatcher.InFrames(disp, t, c) && t in frames ::
          disp.cores[c].frames[t] == frames[t].inv && frames[t].inv.info.transactionId == t)
  }

  ghost predicate SessionMatches(running: map<Tid, Instances.Run>, t: Tid, fr: Frame) {
    && Session.Inv(fr.session)
    && fr.session.h.args == fr.inv.args
    && fr.session.h.code == (if fr.kind.Cold? then fr.inv.code else "")
    && (t in running <==> fr.session.h.setFinished == 0)
    && (t in running ==>
          && running[t].core == fr.core && running[t].kind == fr.kind
          && running[t].fid == fr.inv.info.functionId)
    && (!fr.loaded ==> !fr.session.connectCalled)
    && Session.NoneEmpty(fr.session.h)
    && Session.Reached(fr.session)
  }

  /** Each frame runs its own invocation in its own session, which owns an instance until it
      finishes. */
  ghost predicate SessionsMatch(running: map<Tid, Instances.Run>, frames: map<Tid, Frame>) {
    && (forall t | t in frames :: SessionMatches(running, t, frames[t]))
    && (forall t | t in running :: t in frames)
  }

  ghost predicate GoodActivation(k: Config, t: Tid, a: Activation) {
    k.hash(a.am.transid) == t && k.hash(a.am.revision) != 0
  }

  /** A scheduled activation is on the wire once, or accepted, with its own arguments and code. */
  ghost predicate RequestsMatch(k: Config, scheduled: map<Tid, Activation>, requests: multiset<Wire.Message>,
                                accepted: map<Tid, Invocation>)
  {
    && (forall t | t in scheduled ::
          && GoodActivation(k, t, scheduled[t])
          && (t in accepted || RequestOf(k, scheduled[t]) in requests))
    && (forall m | m in requests ::
          && requests[m] == 1
          && m.header.record.transactionId in scheduled
          && m.header.record.transactionId !in accepted
          && m == RequestOf(k, scheduled[m.header.record.transactionId]))
    && (forall t | t in accepted :: t in scheduled && accepted[t] == InvocationOf(k, scheduled[t]))
  }

  function ReportIn(m: Wire.Message): Report {
    Report(m.header.record.transactionId, m.payload, m.header.record.exec.runTime, m.header.record.exec.initTime)
  }

  ghost predicate GoodReply(results: set<Report>, m: Wire.Message) {
    && m.header.kind == Wire.Reply && m.header.len == |m.payload| == m.header.record.argsSize
    && ReportIn(m) in results
    && !m.header.record.exec.status
  }

  ghost predicate InFlight(replies: multiset<Wire.Message>, t: Tid) {
    exists m :: m in replies && m.header.record.transactionId == t
  }

  /** Replies carry results of sessions; an answered transaction is completed or has a reply on
      the way. */
  ghost predicate RepliesMatch(replies: multiset<Wire.Message>, results: set<Report>, answered: set<Tid>,
                               ctl: Controller.State, accepted: map<Tid, Invocation>)
  {
    && (forall m | m in replies :: GoodReply(results, m))
    && (forall p | p in results :: p.tid in answered && p.tid in accepted)
    && (forall t | t in answered :: t in accepted && (Controller.Completed(ctl, t) || InFlight(replies, t)))
  }

  ghost predicate GoodCompletion(scheduled: map<Tid, Activation>, results: set<Report>,
                                 c: Controller.Completion)
  {
    && c.tid in scheduled
    && Report(c.tid, c.cm.result, c.cm.duration, c.cm.initTime) in results
    && c.cm.statusCode == 0 && c.cm.start == 0 && c.cm.end == 0
    && var am := scheduled[c.tid].am;
       && c.cm.transid == am.transid && c.cm.activationId == am.activationId
       && c.cm.name == am.actionName && c.cm.version == am.actionVersion
       && c.cm.namespaceName == am.namespaceName && c.cm.subject == am.subject
  }

  /** The controller holds a record for every scheduled activation until it completes it. */
  ghost predicate RecordsMatch(ctl: Controller.State, scheduled: map<Tid, Activation>, results: set<Report>) {
    && Controller.Inv(ctl)
    && (forall t | t in ctl.records :: t in scheduled && ctl.records[t].am == scheduled[t].am)
    && (forall t | t in scheduled :: t in ctl.records || Controller.Completed(ctl, t))
    && (forall c | c in ctl.log :: GoodCompletion(scheduled, results, c))
  }

  ghost predicate Inv(k: Config, s: State) {
    && s.status != Asserted
    && Dispatcher.Inv(k.disp, s.disp) && Instances.Inv(Inst(k), s.inst)
    && FramesMatch(s.disp, s.frames)
    && SessionsMatch(s.inst.running, s.frames)
    && RequestsMatch(k, s.scheduled, s.requests, s.disp.accepted)
    && RepliesMatch(s.replies, s.results, s.answered, s.ctl, s.disp.accepted)
    && RecordsMatch(s.ctl, s.scheduled, s.results)
  }

  lemma InitInv(k: Config)
    requires ValidConfig(k)
    ensures Inv(k, Init(k))
  {
    Dispatcher.InitInv(k.disp);
    Instances.InitInv(Inst(k));
  }

  // ---- Scheduling and the request on the wire ----

  lemma NotYetSent(k: Config, scheduled: map<Tid, Activation>, requests: multiset<Wire.Message>,
                   accepted: map<Tid, Invocation>, m: Wire.Message)
    requires RequestsMatch(k, scheduled, requests, accepted)
    requires m.header.record.transactionId !in scheduled
    ensures m !in requests && m.header.record.transactionId !in accepted
  {
  }

  lemma ScheduleRequests(k: Config, scheduled: map<Tid, Activation>, requests: multiset<Wire.Message>,
                         accepted: map<Tid, Invocation>, t: Tid, a: Activation)
    requires RequestsMatch(k, scheduled, requests, accepted) && t !in scheduled && GoodActivation(k, t, a)
    ensures RequestsMatch(k, scheduled[t := a], requests + multiset{RequestOf(k, a)}, accepted)
  {
    var m := RequestOf(k, a);
    NotYetSent(k, scheduled, requests, accepted, m);
    MoreRequests(k, scheduled, requests, accepted, t, a, m);
  }

  lemma MoreRequests(k: Config, scheduled: map<Tid, Activation>, requests: multiset<Wire.Message>,
                     accepted: map<Tid, Invocation>, t: Tid, a: Activation, m: Wire.Message)
    requires RequestsMatch(k, scheduled, requests, accepted) && t !in scheduled && GoodActivation(k, t, a)
    requires m == RequestOf(k, a) && m.header.record.transactionId == t && m !in requests && t !in accepted
    ensures RequestsMatch(k, scheduled[t := a], requests + multiset{m}, accepted)
  {
    hide RequestOf, InvocationOf, GoodActivation;
  }

  lemma ScheduleRecords(ctl: Controller.State, scheduled: map<Tid, Activation>, results: set<Report>,
                        t: Tid, a: Activation, start: nat)
    requires RecordsMatch(ctl, scheduled, results) && t !in scheduled
    ensures t !in ctl.records
    ensures RecordsMatch(Controller.Schedule(ctl, t, a.am, start), scheduled[t := a], results)
    ensures forall u ::
      Controller.Completed(Controller.Schedule(ctl, t, a.am, start), u) <==> Controller.Completed(ctl, u)
  {
    var ctl' := Controller.Schedule(ctl, t, a.am, start);
    forall c | c in ctl.log ensures c.tid != t && GoodCompletion(scheduled[t := a], results, c) {
      assert GoodCompletion(scheduled, results, c);
    }
    forall u ensures Controller.Completed(ctl', u) <==> Controller.Completed(ctl, u) {}
  }

  lemma SameReplies(replies: multiset<Wire.Message>, results: set<Report>, answered: set<Tid>,
                    ctl: Controller.State, accepted: map<Tid, Invocation>,
                    ctl': Controller.State, accepted': map<Tid, Invocation>)
    requires RepliesMatch(replies, results, answered, ctl, accepted)
    requires forall u | Controller.Completed(ctl, u) :: Controller.Completed(ctl', u)
    requires accepted.Keys <= accepted'.Keys
    ensures RepliesMatch(replies, results, answered, ctl', accepted')
  {
  }

  lemma ScheduleKeeps(k: Config, s: State, am: ActivationMessage, code: string, start: nat)
    requires ValidConfig(k) && Inv(k, s) && Enabled(k, s, Schedule(am, code, start))
    ensures Inv(k, Step(k, s, Schedule(am, code, start)))
  {
    var s' := Step(k, s, Schedule(am, code, start));
    var t, a := k.hash(am.transid), Activation(am, code);
    ScheduleRecords(s.ctl, s.scheduled, s.results, t, a, start);
    ScheduleRequests(k, s.scheduled, s.requests, s.disp.accepted, t, a);
    SameReplies(s.replies, s.results, s.answered, s.ctl, s.disp.accepted, s'.ctl, s.disp.accepted);
  }

  /** A delivered request is exactly the scheduled invocation, and not one already accepted. */
  lemma AcceptRequest(k: Config, scheduled: map<Tid, Activation>, requests: multiset<Wire.Message>,
                      accepted: map<Tid, Invocation>, m: Wire.Message)
    requires RequestsMatch(k, scheduled, requests, accepted) && m in requests
    ensures var t := m.header.record.transactionId;
      && t in scheduled && t !in accepted && m.header.len <= |m.payload|
      && Wire.Deliver(true, m) == Wire.Queue(InvocationOf(k, scheduled[t]))
      && RequestsMatch(k, scheduled, requests - multiset{m}, accepted[t := InvocationOf(k, scheduled[t])])
  {
    var a := scheduled[m.header.record.transactionId];
    Wire.RequestArrives(Controller.StatsOf(k.hash, a.am), a.am.content, a.code);
    forall n | n in requests - multiset{m} ensures n.header.record.transactionId != m.header.record.transactionId {
      assert requests[m] == 1;
    }
  }

  lemma AddWorkFrames(k: Config, disp: Dispatcher.State, inv: Invocation, frames: map<Tid, Frame>)
    requires Dispatcher.Enabled(k.disp, disp, Dispatcher.AddWork(inv)) && FramesMatch(disp, frames)
    ensures FramesMatch(Dispatcher.Step(k.disp, disp, Dispatcher.AddWork(inv)), frames)
  {
    var disp' := Dispatcher.Step(k.disp, disp, Dispatcher.AddWork(inv));
    forall t, c: nat ensures Dispatcher.InFrames(disp', t, c) <==> Dispatcher.InFrames(disp, t, c) {}
  }

  lemma DeliverRequestKeeps(k: Config, s: State, m: Wire.Message)
    requires ValidConfig(k) && Inv(k, s) && Enabled(k, s, DeliverRequest(m))
    ensures Inv(k, Step(k, s, DeliverRequest(m)))
  {
    var s' := Step(k, s, DeliverRequest(m));
    AcceptRequest(k, s.scheduled, s.requests, s.disp.accepted, m);
    var inv := InvocationOf(k, s.scheduled[m.header.record.transactionId]);
    Dispatcher.StepInv(k.disp, s.disp, Dispatcher.AddWork(inv));
    AddWorkFrames(k, s.disp, inv, s.frames);
    SameReplies(s.replies, s.results, s.answered, s.ctl, s.disp.accepted, s.ctl, s'.disp.accepted);
  }

  // ---- Attempts ----

  lemma NewSession(running: map<Tid, Instances.Run>, core: nat, inv: Invocation, kind: Instances.Kind)
    requires inv.info.transactionId in running
    requires var run := running[inv.info.transactionId];
      run.core == core && run.kind == kind && run.fid == inv.info.functionId
    ensures SessionMatches(running, inv.info.transactionId, NewFrame(core, inv, kind))
  {
    hide Session.Inv, Session.Reached;
    Session.InitInv(inv.args, if kind.Cold? then inv.code else "");
    Session.InitReached(inv.args, if kind.Cold? then inv.code else "");
  }

  lemma AttemptSessions(running: map<Tid, Instances.Run>, frames: map<Tid, Frame>, t: Tid, run: Instances.Run,
                        fr: Frame)
    requires forall u | u in frames && u != t :: SessionMatches(running, u, frames[u])
    requires forall u | u in running :: u in frames
    requires SessionMatches(running[t := run], t, fr)
    ensures SessionsMatch(running[t := run], frames[t := fr])
  {
    hide Session.Inv, Session.NoneEmpty, Session.Reached;
    forall u | u in frames && u != t ensures SessionMatches(running[t := run], u, frames[u]) {
      assert SessionMatches(running, u, frames[u]);
    }
  }

  lemma AttemptStep(k: Config, s: State, core: nat, inv: Invocation, from: Instances.Kind, id: Id)
    requires core < |s.inst.hot| && Fresh(s, id) && inv.info.functionId != 0
    requires inv.info.transactionId !in s.inst.running
    ensures var t := inv.info.transactionId; var e := Instances.Start(t, core, inv.info.functionId, from, id);
      && Instances.Enabled(Inst(k), s.inst, e)
      && Attempt(k, s, core, inv, from, id) ==
           s.(inst := Instances.Step(Inst(k), s.inst, e),
              frames := s.frames[t := NewFrame(core, inv,
                Instances.Resolve(Inst(k), s.inst, core, inv.info.functionId, from))])
  {
    hide Instances.Step, Instances.Resolve, NewFrame;
  }

  lemma AttemptKeeps(k: Config, s: State, core: nat, inv: Invocation, from: Instances.Kind, id: Id)
    requires ValidConfig(k) && Instances.Inv(Inst(k), s.inst) && core < k.disp.cores && Fresh(s, id)
    requires inv.info.functionId != 0 && inv.info.transactionId !in s.inst.running
    requires forall u | u in s.frames && u != inv.info.transactionId :: SessionMatches(s.inst.running, u, s.frames[u])
    requires forall u | u in s.inst.running :: u in s.frames
    ensures var s' := Attempt(k, s, core, inv, from, id);
      && Instances.Inv(Inst(k), s'.inst) && SessionsMatch(s'.inst.running, s'.frames)
      && inv.info.transactionId in s'.frames && s'.frames[inv.info.transactionId].core == core
      && s'.frames[inv.info.transactionId].inv == inv
      && s' == s.(inst := s'.inst, frames := s.frames[inv.info.transactionId := s'.frames[inv.info.transactionId]])
  {
    hide Attempt, Instances.Step, Instances.Resolve, Instances.OwnersOk, SessionMatches;
    var t, fid := inv.info.transactionId, inv.info.functionId;
    var e := Instances.Start(t, core, fid, from, id);
    var kind := Instances.Resolve(Inst(k), s.inst, core, fid, from);
    AttemptStep(k, s, core, inv, from, id);
    Instances.StepInv(Inst(k), s.inst, e);
    Instances.StartRunning(Inst(k), s.inst, t, core, fid, from, id);
    var running' := Instances.Step(Inst(k), s.inst, e).running;
    NewSession(running', core, inv, kind);
    AttemptSessions(s.inst.running, s.frames, t, running'[t], NewFrame(core, inv, kind));
  }

  lemma PokeFrames(k: Config, disp: Dispatcher.State, core: nat, frames: map<Tid, Frame>, fr: Frame)
    requires Dispatcher.Enabled(k.disp, disp, Dispatcher.Poke(core)) && FramesMatch(disp, frames)
    requires WorkQueue.Valid(disp.queue)
    ensures var disp' := Dispatcher.Step(k.disp, disp, Dispatcher.Poke(core));
      if Dispatcher.Dispatches(k.disp, disp, core) then
        var t := disp.queue.order[0];
        t in disp.queue.table
        && (fr.core == core && fr.inv == disp.queue.table[t] && t !in frames ==> FramesMatch(disp', frames[t := fr]))
      else FramesMatch(disp', frames)
  {
    var disp' := Dispatcher.Step(k.disp, disp, Dispatcher.Poke(core));
    if Dispatcher.Dispatches(k.disp, disp, core) {
      WorkQueue.TakeServesOldest(disp.queue);
      var t0 := disp.queue.order[0];
      forall t, c: nat ensures Dispatcher.InFrames(disp', t, c) <==>
        Dispatcher.InFrames(disp, t, c) || (t == t0 && c == core) {}
      if t0 !in frames {
        assert forall c: nat :: !Dispatcher.InFrames(disp, t0, c);
      }
    } else {
      forall t, c: nat ensures Dispatcher.InFrames(disp', t, c) <==> Dispatcher.InFrames(disp, t, c) {}
    }
  }

  /** A queued transaction has no frame, and belongs to a good activation. */
  lemma QueuedFacts(k: Config, s: State, t: Tid)
    requires Dispatcher.Conserved(s.disp) && FramesMatch(s.disp, s.frames) && t in s.disp.queue.table
    requires RequestsMatch(k, s.scheduled, s.requests, s.disp.accepted)
    ensures t !in s.frames && s.disp.queue.table[t].info.functionId != 0
    ensures t in s.scheduled && s.disp.queue.table[t] == InvocationOf(k, s.scheduled[t])
  {
    assert !Dispatcher.Active(s.disp, t);
    assert t in s.frames ==> Dispatcher.InFrames(s.disp, t, s.frames[t].core);
    assert GoodActivation(k, t, s.scheduled[t]);
  }

  lemma RunPokeKeeps(k: Config, s: State, core: nat, id: Id)
    requires ValidConfig(k) && Inv(k, s) && Enabled(k, s, RunPoke(core, id))
    ensures Inv(k, Step(k, s, RunPoke(core, id)))
  {
    var e := Dispatcher.Poke(core);
    var s' := Step(k, s, RunPoke(core, id));
    Dispatcher.StepInv(k.disp, s.disp, e);
    var s1 := DispStep(k, s, e);
    if Dispatcher.Dispatches(k.disp, s.disp, core) {
      WorkQueue.TakeServesOldest(s.disp.queue);
      var t := s.disp.queue.order[0];
      var inv := s.disp.queue.table[t];
      QueuedFacts(k, s, t);
      AttemptKeeps(k, s1, core, inv, Instances.Hot, id);
      PokeFrames(k, s.disp, core, s.frames, s'.frames[t]);
    } else {
      PokeFrames(k, s.disp, core, s.frames, NewFrame(core, Dispatcher.Request(0), Instances.Hot));
    }
  }

  lemma UpdateFrame(disp: Dispatcher.State, frames: map<Tid, Frame>, t: Tid, fr: Frame)
    requires FramesMatch(disp, frames) && t in frames && fr.core == frames[t].core && fr.inv == frames[t].inv
    ensures FramesMatch(disp, frames[t := fr])
  {
    var frames' := frames[t := fr];
    assert Dispatcher.InFrames(disp, t, frames[t].core);
    forall u, c: nat ensures Dispatcher.InFrames(disp, u, c) <==> u in frames' && frames'[u].core == c {}
  }

  lemma LoadDoneKeeps(k: Config, s: State, t: Tid)
    requires ValidConfig(k) && Inv(k, s) && Enabled(k, s, LoadDone(t))
    ensures Inv(k, Step(k, s, LoadDone(t)))
  {
    var s' := Step(k, s, LoadDone(t));
    UpdateFrame(s.disp, s.frames, t, s'.frames[t]);
    LoadedSessions(s.inst.running, s.frames, t);
  }

  lemma LoadedSessions(running: map<Tid, Instances.Run>, frames: map<Tid, Frame>, t: Tid)
    requires SessionsMatch(running, frames) && t in frames
    ensures SessionsMatch(running, frames[t := frames[t].(loaded := true)])
  {
    assert SessionMatches(running, t, frames[t]);
  }

  lemma FinishFrames(k: Config, disp: Dispatcher.State, frames: map<Tid, Frame>, t: Tid)
    requires FramesMatch(disp, frames) && t in frames
    ensures Dispatcher.Enabled(k.disp, disp, Dispatcher.Finish(frames[t].core, t))
    ensures FramesMatch(Dispatcher.Step(k.disp, disp, Dispatcher.Finish(frames[t].core, t)), frames - {t})
  {
    var d := frames[t].core;
    assert Dispatcher.InFrames(disp, t, d);
    var disp' := Dispatcher.Step(k.disp, disp, Dispatcher.Finish(d, t));
    forall u, c: nat ensures Dispatcher.InFrames(disp', u, c) <==> Dispatcher.InFrames(disp, u, c) && u != t {
      assert Dispatcher.InFrames(disp, u, c) && u == t ==> c == d;
    }
  }

  lemma FinishSessions(running: map<Tid, Instances.Run>, frames: map<Tid, Frame>, t: Tid)
    requires SessionsMatch(running, frames) && t in frames && frames[t].session.h.setFinished > 0
    ensures t !in running && SessionsMatch(running, frames - {t})
  {
    assert SessionMatches(running, t, frames[t]);
  }

  /** A live frame's invocation is its own activation's. */
  lemma FrameFacts(k: Config, s: State, t: Tid)
    requires |s.disp.cores| == k.disp.cores && Dispatcher.Conserved(s.disp) && FramesMatch(s.disp, s.frames)
    requires RequestsMatch(k, s.scheduled, s.requests, s.disp.accepted) && t in s.frames
    ensures var fr := s.frames[t];
      && fr.inv.info.transactionId == t && fr.core < k.disp.cores && fr.inv.info.functionId != 0
      && t in s.disp.accepted && t in s.scheduled && fr.inv == InvocationOf(k, s.scheduled[t])
  {
    assert Dispatcher.InFrames(s.disp, t, s.frames[t].core);
    assert Dispatcher.Active(s.disp, t);
    assert GoodActivation(k, t, s.scheduled[t]);
  }

  lemma FrameCore(k: Config, s: State, t: Tid)
    requires Inv(k, s) && t in s.frames
    ensures s.frames[t].core < k.disp.cores
  {
    hide Instances.Inv, SessionsMatch, RepliesMatch, RecordsMatch;
    FrameFacts(k, s, t);
  }

  lemma ReturnKeeps(k: Config, s: State, t: Tid, id: Id)
    requires ValidConfig(k) && Inv(k, s) && Enabled(k, s, Resume(t, id)) && s.frames[t].session.h.finishedOk
    ensures Inv(k, Step(k, s, Resume(t, id)))
  {
    FinishSessions(s.inst.running, s.frames, t);
    FinishFrames(k, s.disp, s.frames, t);
    Dispatcher.StepInv(k.disp, s.disp, Dispatcher.Finish(s.frames[t].core, t));
  }

  lemma RetryKeeps(k: Config, s: State, t: Tid, from: Instances.Kind, id: Id)
    requires ValidConfig(k) && Inv(k, s) && Enabled(k, s, Resume(t, id))
    ensures Inv(k, Attempt(k, s, s.frames[t].core, s.frames[t].inv, from, id))
  {
    var fr := s.frames[t];
    FrameFacts(k, s, t);
    FinishSessions(s.inst.running, s.frames, t);
    AttemptKeeps(k, s, fr.core, fr.inv, from, id);
    UpdateFrame(s.disp, s.frames, t, Attempt(k, s, fr.core, fr.inv, from, id).frames[t]);
  }

  lemma ResumeKeeps(k: Config, s: State, t: Tid, id: Id)
    requires ValidConfig(k) && Inv(k, s) && Enabled(k, s, Resume(t, id))
    ensures Inv(k, Step(k, s, Resume(t, id)))
  {
    if s.frames[t].session.h.finishedOk {
      ReturnKeeps(k, s, t, id);
    } else {
      match s.frames[t].kind
      case Hot => RetryKeeps(k, s, t, Instances.Warm, id);
      case Warm => RetryKeeps(k, s, t, Instances.Cold, id);
      case Cold =>
    }
  }

  lemma InstanceEventKeeps(k: Config, s: State, e: Event)
    requires ValidConfig(k) && Inv(k, s) && Enabled(k, s, e) && (e.Capture? || e.RunHalt?)
    ensures Inv(k, Step(k, s, e))
  {
    hide FramesMatch, SessionsMatch, RepliesMatch, RecordsMatch, RequestsMatch, Dispatcher.Inv, Instances.Inv;
    var ie := if e.Capture? then Instances.Capture(e.id, e.sv) else Instances.RunHalt(e.id);
    Instances.StepInv(Inst(k), s.inst, ie);
    Instances.OtherRunning(Inst(k), s.inst, ie);
  }

  // ---- Session events ----

  lemma ReportReplies(replies: multiset<Wire.Message>, results: set<Report>, answered: set<Tid>,
                      ctl: Controller.State, accepted: map<Tid, Invocation>, stats: InvocationStats, r: string)
    requires RepliesMatch(replies, results, answered, ctl, accepted)
    requires stats.transactionId in accepted && !stats.exec.status
    ensures var t := stats.transactionId;
      RepliesMatch(replies + multiset{Wire.EncodeReply(stats, r)},
                   results + {Report(t, r, stats.exec.runTime, stats.exec.initTime)},
                   answered + {t}, ctl, accepted)
  {
    var t := stats.transactionId;
    var m, replies' := Wire.EncodeReply(stats, r), replies + multiset{Wire.EncodeReply(stats, r)};
    assert m in replies' && m.header.record.transactionId == t;
    forall u | u in answered && InFlight(replies, u) ensures InFlight(replies', u) {
      var n :| n in replies && n.header.record.transactionId == u;
      assert n in replies';
    }
    forall n | n in replies'
      ensures GoodReply(results + {Report(t, r, stats.exec.runTime, stats.exec.initTime)}, n)
    {
      if n in replies { assert GoodReply(results, n); }
    }
  }

  lemma MoreResults(ctl: Controller.State, scheduled: map<Tid, Activation>, results: set<Report>,
                    p: Report)
    requires RecordsMatch(ctl, scheduled, results)
    ensures RecordsMatch(ctl, scheduled, results + {p})
  {
    forall c | c in ctl.log ensures GoodCompletion(scheduled, results + {p}, c) {
      assert GoodCompletion(scheduled, results, c);
    }
  }

  lemma SessionMoves(running: map<Tid, Instances.Run>, t: Tid, fr: Frame, e: Session.Event)
    requires SessionMatches(running, t, fr) && fr.loaded && Session.Enabled(fr.session, e)
    requires !Session.SendsEmpty(fr.session.h, Session.Step(fr.session, e).h)
    ensures var x := Session.Step(fr.session, e);
      && (x.h.setFinished <= fr.session.h.setFinished ==> SessionMatches(running, t, fr.(session := x)))
      && (x.h.setFinished > fr.session.h.setFinished ==>
            t in running && running[t].core == fr.core && SessionMatches(running - {t}, t, fr.(session := x)))
  {
    hide Session.Step, Session.Enabled, Session.Inv, Session.NoneEmpty, Session.SendsEmpty, Session.Reached;
    Session.StepInv(fr.session, e);
    Session.StepReports(fr.session, e);
    Session.SendsKeepNonempty(fr.session, e);
    Session.StepReaches(fr.session, e);
  }

  lemma OtherSessions(running: map<Tid, Instances.Run>, frames: map<Tid, Frame>, t: Tid, fr: Frame)
    requires SessionsMatch(running, frames) && t in frames
    ensures SessionMatches(running, t, fr) ==> SessionsMatch(running, frames[t := fr])
    ensures SessionMatches(running - {t}, t, fr) ==> SessionsMatch(running - {t}, frames[t := fr])
  {
    hide Session.Inv, Session.NoneEmpty, Session.Reached;
    forall u | u in frames && u != t ensures SessionMatches(running - {t}, u, frames[u]) {
      assert SessionMatches(running, u, frames[u]);
    }
  }

  lemma SessionFrames(running: map<Tid, Instances.Run>, frames: map<Tid, Frame>, t: Tid, e: Session.Event)
    requires SessionsMatch(running, frames) && t in frames && frames[t].loaded
    requires Session.Enabled(frames[t].session, e)
    requires !Session.SendsEmpty(frames[t].session.h, Session.Step(frames[t].session, e).h)
    ensures var x := Session.Step(frames[t].session, e);
      var frames' := frames[t := frames[t].(session := x)];
      && (x.h.setFinished <= frames[t].session.h.setFinished ==> SessionsMatch(running, frames'))
      && (x.h.setFinished > frames[t].session.h.setFinished ==>
            t in running && running[t].core == frames[t].core && SessionsMatch(running - {t}, frames'))
  {
    SessionMoves(running, t, frames[t], e);
    OtherSessions(running, frames, t, frames[t].(session := Session.Step(frames[t].session, e)));
  }

  lemma SettleFields(k: Config, s: State, t: Tid, x: Session.Session, now: nat)
    requires t in s.frames
    ensures var s' := Settle(k, s, t, x, now);
      && s'.disp == s.disp && s'.scheduled == s.scheduled && s'.requests == s.requests && s'.ctl == s.ctl
      && s'.frames == s.frames[t := s.frames[t].(session := x)]
  {
    hide InstStep;
    if x.h.setFinished > s.frames[t].session.h.setFinished {
      SettleEnd(k, s, t, x, now);
    }
  }

  /** Settling is reporting and, at the end of the session, ending its run. */
  lemma SettleEnd(k: Config, s: State, t: Tid, x: Session.Session, now: nat)
    requires t in s.frames && x.h.setFinished > s.frames[t].session.h.setFinished
    ensures var s1 := s.(frames := s.frames[t := s.frames[t].(session := x)]);
      var s2 := if x.h.setExecuted > s.frames[t].session.h.setExecuted
                then ReportResult(s1, t, s.frames[t], x.h, now) else s1;
      && Settle(k, s, t, x, now) == InstStep(k, s2, Instances.End(t, x.h.finishedOk))
      && var s' := Settle(k, s, t, x, now);
         s' == s2.(inst := s'.inst, status := s'.status)
  {
    hide ReportResult;
  }

  lemma SettleInst(k: Config, s: State, t: Tid, x: Session.Session, now: nat)
    requires t in s.frames
    ensures var s' := Settle(k, s, t, x, now);
      && (x.h.setFinished <= s.frames[t].session.h.setFinished ==> s'.inst == s.inst && s'.status == s.status)
      && (x.h.setFinished > s.frames[t].session.h.setFinished
          && CanStep(k, s.inst, Instances.End(t, x.h.finishedOk)) ==>
            s'.status == s.status && s'.inst == Instances.Step(Inst(k), s.inst, Instances.End(t, x.h.finishedOk)))
  {
  }

  lemma SettleResults(k: Config, s: State, t: Tid, x: Session.Session, now: nat)
    requires t in s.frames
    ensures var s' := Settle(k, s, t, x, now);
      if x.h.setExecuted > s.frames[t].session.h.setExecuted then
        var stats := ReplyStats(s.frames[t], x.h, now);
        && s'.replies == s.replies + multiset{Wire.EncodeReply(stats, x.h.reply)}
        && s'.results == s.results + {Report(t, x.h.reply, stats.exec.runTime, stats.exec.initTime)}
        && s'.answered == s.answered + {t}
      else
        s'.replies == s.replies && s'.results == s.results && s'.answered == s.answered
  {
  }

  /** The session event without its end: the frame, and the reply if there is a result. */
  lemma SettleReports(k: Config, s: State, t: Tid, x: Session.Session, now: nat)
    requires t in s.frames && t in s.disp.accepted && s.frames[t].inv.info.transactionId == t
    requires RepliesMatch(s.replies, s.results, s.answered, s.ctl, s.disp.accepted)
    requires RecordsMatch(s.ctl, s.scheduled, s.results)
    ensures var s' := Settle(k, s, t, x, now);
      && RepliesMatch(s'.replies, s'.results, s'.answered, s.ctl, s.disp.accepted)
      && RecordsMatch(s.ctl, s.scheduled, s'.results)
  {
    var fr := s.frames[t];
    SettleResults(k, s, t, x, now);
    if x.h.setExecuted > fr.session.h.setExecuted {
      var stats := ReplyStats(fr, x.h, now);
      ReportReplies(s.replies, s.results, s.answered, s.ctl, s.disp.accepted, stats, x.h.reply);
      MoreResults(s.ctl, s.scheduled, s.results, Report(t, x.h.reply, stats.exec.runTime, stats.exec.initTime));
    }
  }

  lemma SessionEnds(k: Config, s: State, t: Tid, e: Session.Event, now: nat)
    requires ValidConfig(k) && Instances.Inv(Inst(k), s.inst) && SessionsMatch(s.inst.running, s.frames)
    requires s.status == Running && t in s.frames && s.frames[t].core < k.disp.cores
    requires s.frames[t].loaded && Session.Enabled(s.frames[t].session, e)
    requires !SendsEmpty(s, t, e)
    ensures var s' := Settle(k, s, t, Session.Step(s.frames[t].session, e), now);
      && s'.status == Running && Instances.Inv(Inst(k), s'.inst) && SessionsMatch(s'.inst.running, s'.frames)
  {
    var x := Session.Step(s.frames[t].session, e);
    SessionFrames(s.inst.running, s.frames, t, e);
    SettleFields(k, s, t, x, now);
    SettleInst(k, s, t, x, now);
    if x.h.setFinished > s.frames[t].session.h.setFinished {
      EndKeeps(k, s.inst, t, x.h.finishedOk);
    }
  }

  lemma EndKeeps(k: Config, inst: Instances.State, t: Tid, ok: bool)
    requires ValidConfig(k) && Instances.Inv(Inst(k), inst)
    requires t in inst.running && inst.running[t].core < k.disp.cores
    ensures CanStep(k, inst, Instances.End(t, ok))
    ensures Instances.Inv(Inst(k), Instances.Step(Inst(k), inst, Instances.End(t, ok)))
    ensures Instances.Step(Inst(k), inst, Instances.End(t, ok)).running == inst.running - {t}
  {
    Instances.EndPasses(Inst(k), inst, t, ok);
    Instances.StepInv(Inst(k), inst, Instances.End(t, ok));
    Instances.OtherRunning(Inst(k), inst, Instances.End(t, ok));
  }

  lemma SessionEventKeeps(k: Config, s: State, t: Tid, e: Session.Event)
    requires ValidConfig(k) && Inv(k, s) && Enabled(k, s, SessionEvent(t, e))
    ensures Inv(k, Step(k, s, SessionEvent(t, e)))
  {
    hide Step, Settle, Session.Step, SendsEmpty, FramesMatch, SessionsMatch;
    hide RepliesMatch, RecordsMatch, RequestsMatch;
    SessionIsOk(s.inst.running, s.frames, t);
    SessionEventStep(k, s, t, e);
    if !SendsEmpty(s, t, e) {
      var x := Session.Step(s.frames[t].session, e);
      FrameFacts(k, s, t);
      SettleFields(k, s, t, x, Time(e));
      UpdateFrame(s.disp, s.frames, t, s.frames[t].(session := x));
      SettleReports(k, s, t, x, Time(e));
      SessionEnds(k, s, t, e, Time(e));
    }
  }

  lemma SessionIsOk(running: map<Tid, Instances.Run>, frames: map<Tid, Frame>, t: Tid)
    requires SessionsMatch(running, frames) && t in frames
    ensures Session.Inv(frames[t].session) && Session.PromisesOk(frames[t].session)
  {
    assert SessionMatches(running, t, frames[t]);
  }

  // ---- Replies ----

  lemma ResolveRecords(ctl: Controller.State, scheduled: map<Tid, Activation>, results: set<Report>,
                       stats: InvocationStats, r: string)
    requires RecordsMatch(ctl, scheduled, results)
    requires Report(stats.transactionId, r, stats.exec.runTime, stats.exec.initTime) in results
    requires !stats.exec.status
    ensures RecordsMatch(Controller.Resolve(ctl, stats, r), scheduled, results)
  {
    var t, ctl' := stats.transactionId, Controller.Resolve(ctl, stats, r);
    Controller.ResolveOnce(ctl, stats, r, stats, r);
    if t in ctl.records {
      var c := Controller.Completion(t, Controller.CompletionOf(ctl.records[t].am, stats, r));
      assert GoodCompletion(scheduled, results, c);
      forall d | d in ctl'.log ensures GoodCompletion(scheduled, results, d) {
        if d != c { assert d in ctl.log; }
      }
    }
  }

  lemma ResolveReplies(replies: multiset<Wire.Message>, results: set<Report>, answered: set<Tid>,
                       ctl: Controller.State, accepted: map<Tid, Invocation>, m: Wire.Message)
    requires RepliesMatch(replies, results, answered, ctl, accepted) && Controller.Inv(ctl) && m in replies
    requires forall t | t in accepted :: t in ctl.records || Controller.Completed(ctl, t)
    ensures RepliesMatch(replies - multiset{m}, results, answered,
                         Controller.Resolve(ctl, m.header.record, m.payload), accepted)
  {
    var ctl' := Controller.Resolve(ctl, m.header.record, m.payload);
    Controller.ResolveOnce(ctl, m.header.record, m.payload, m.header.record, m.payload);
    assert GoodReply(results, m);
    forall t | t in answered
      ensures Controller.Completed(ctl', t) || InFlight(replies - multiset{m}, t)
    {
      if t != m.header.record.transactionId && !Controller.Completed(ctl, t) {
        var n :| n in replies && n.header.record.transactionId == t;
        assert n in replies - multiset{m};
      }
    }
  }

  lemma GoodReplyArrives(results: set<Report>, m: Wire.Message)
    requires GoodReply(results, m)
    ensures Wire.Deliver(false, m) == Wire.Resolve(m.header.record, m.payload)
  {
    assert m.payload[..|m.payload|] == m.payload;
  }

  lemma DeliverReplyStep(k: Config, s: State, m: Wire.Message)
    requires Enabled(k, s, DeliverReply(m)) && GoodReply(s.results, m)
    ensures Step(k, s, DeliverReply(m)) ==
      s.(replies := s.replies - multiset{m}, ctl := Controller.Resolve(s.ctl, m.header.record, m.payload))
  {
    GoodReplyArrives(s.results, m);
  }

  lemma DeliverReplyKeeps(k: Config, s: State, m: Wire.Message)
    requires ValidConfig(k) && Inv(k, s) && Enabled(k, s, DeliverReply(m))
    ensures Inv(k, Step(k, s, DeliverReply(m)))
  {
    DeliverReplyStep(k, s, m);
    assert forall t | t in s.disp.accepted :: t in s.ctl.records || Controller.Completed(s.ctl, t);
    ResolveReplies(s.replies, s.results, s.answered, s.ctl, s.disp.accepted, m);
    ResolveRecords(s.ctl, s.scheduled, s.results, m.header.record, m.payload);
  }

  /** Only a new activation changes what is scheduled. */
  lemma ScheduledAfter(k: Config, s: State, e: Event)
    requires Inv(k, s) && Enabled(k, s, e)
    ensures Step(k, s, e).scheduled ==
      if e.Schedule? then s.scheduled[k.hash(e.am.transid) := Activation(e.am, e.code)] else s.scheduled
  {
    hide Dispatcher.Inv, Instances.Inv, FramesMatch, RequestsMatch, Settle, SendsEmpty;
    match e
    case Schedule(am, code, start) => ScheduleStep(k, s, am, code, start);
    case SessionEvent(t, se) =>
      SessionIsOk(s.inst.running, s.frames, t);
      SessionEventStep(k, s, t, se);
      SettleFields(k, s, t, Session.Step(s.frames[t].session, se), Time(se));
    case DeliverReply(m) => DeliverReplyStep(k, s, m);
    case _ => Unseen(k, s, e);
  }

  // ---- The invariant over whole runs ----

  lemma StepInv(k: Config, s: State, e: Event)
    requires ValidConfig(k) && Inv(k, s) && Enabled(k, s, e)
    ensures Inv(k, Step(k, s, e))
  {
    match e
    case Schedule(am, code, start) => ScheduleKeeps(k, s, am, code, start);
    case DeliverRequest(m) => DeliverRequestKeeps(k, s, m);
    case RunPoke(core, id) => RunPokeKeeps(k, s, core, id);
    case LoadDone(t) => LoadDoneKeeps(k, s, t);
    case SessionEvent(t, se) => SessionEventKeeps(k, s, t, se);
    case Resume(t, id) => ResumeKeeps(k, s, t, id);
    case Capture(id, sv) => InstanceEventKeeps(k, s, e);
    case RunHalt(id) => InstanceEventKeeps(k, s, e);
    case DeliverReply(m) => DeliverReplyKeeps(k, s, m);
  }

  lemma {:induction false} RunInv(k: Config, s: State, es: seq<Event>)
    requires ValidConfig(k) && Inv(k, s) && IsRun(k, s, es)
    ensures Inv(k, After(k, s, es))
    decreases |es|
  {
    if es != [] {
      StepInv(k, s, es[0]);
      RunInv(k, Step(k, s, es[0]), es[1..]);
    }
  }

  lemma Reachable(k: Config, es: seq<Event>)
    requires ValidConfig(k) && IsRun(k, Init(k), es)
    ensures Inv(k, After(k, Init(k), es))
  {
    InitInv(k);
    RunInv(k, Init(k), es);
  }

  /** The cold attempt of a request has failed. */
  predicate OutOfAttempts(s: State, e: Event) {
    e.Resume? && e.tid in s.frames && !s.frames[e.tid].session.h.finishedOk && s.frames[e.tid].kind.Cold?
  }

  /** An invocation without arguments gets as far as its `/run`. */
  ghost predicate RunsWithoutArguments(s: State, e: Event) {
    && e.SessionEvent? && e.tid in s.frames && e.tid in s.scheduled && s.scheduled[e.tid].am.content == ""
    && var h := s.frames[e.tid].session.h;
       || (e.e.ERunConnected? && h.code == "")
       || (e.e.EReceive? && !h.isInitialized && Session.AnswerOf(e.e.raw, "{\"OK\":true}"))
  }

  /** The node goes down exactly when the cold attempt of a request fails or a request without
      arguments gets as far as its `/run`; once down it stays down. */
  lemma StopsExactlyWhen(k: Config, s: State, e: Event)
    requires ValidConfig(k) && Inv(k, s) && Enabled(k, s, e)
    ensures Step(k, s, e).status != Asserted
    ensures s.status == Running ==>
      (Step(k, s, e).status != Running <==> OutOfAttempts(s, e) || RunsWithoutArguments(s, e))
    ensures s.status == Running ==> (Step(k, s, e).status.EmptyPayload? <==> RunsWithoutArguments(s, e))
    ensures s.status != Running ==> Step(k, s, e).status == s.status
  {
    hide Dispatcher.Inv, Instances.Inv, FramesMatch, SessionsMatch, RequestsMatch, Dispatcher.Step, SendsEmpty;
    StepInv(k, s, e);
    match e
    case Resume(t, id) => ResumeFrame(k, s, t, id);
    case SessionEvent(t, se) => SessionStatus(k, s, t, se);
    case Schedule(am, code, start) =>
    case DeliverReply(m) => DeliverReplyStep(k, s, m);
    case _ => Unseen(k, s, e);
  }

  lemma SessionStatus(k: Config, s: State, t: Tid, e: Session.Event)
    requires ValidConfig(k) && Inv(k, s) && Enabled(k, s, SessionEvent(t, e))
    ensures Step(k, s, SessionEvent(t, e)).status ==
      if RunsWithoutArguments(s, SessionEvent(t, e)) then EmptyPayload(t) else Running
  {
    StepInv(k, s, SessionEvent(t, e));
    FrameFacts(k, s, t);
    assert SessionMatches(s.inst.running, t, s.frames[t]);
    Session.SendsEmptyWhen(s.frames[t].session, e);
    SessionEventStep(k, s, t, e);
    SettleStatus(k, s, t, Session.Step(s.frames[t].session, e), Time(e));
  }

  lemma SettleStatus(k: Config, s: State, t: Tid, x: Session.Session, now: nat)
    requires t in s.frames
    ensures Settle(k, s, t, x, now).status in {s.status, Asserted}
  {
  }
}
