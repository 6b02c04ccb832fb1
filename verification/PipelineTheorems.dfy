/** What the pipeline guarantees on every run. */
module PipelineTheorems {
  import opened Seuss
  import opened Pipeline
  import ActivationSpec
  import Controller
  import Dispatcher
  import Instances
  import Session
  import Wire

  /** No kernel assertion of the modelled path ever fails, except that on an empty payload: the table
      inserts of controller and queue, the queue lookup, the payload split, the null ids and the lost
      instance of the hot cache, and Connect on a connected session. */
  lemma NoAssertionFails(k: Config, es: seq<Event>)
    requires ValidConfig(k) && IsRun(k, Init(k), es)
    ensures After(k, Init(k), es).status != Asserted
  {
    Reachable(k, es);
  }

  // ---- Refinement ----

  function Reported(log: seq<Controller.Completion>, t: Tid): Report {
    if log == [] then Report(t, "", 0, 0)
    else if log[0].tid == t then ReportOf(log[0])
    else Reported(log[1..], t)
  }

  function ReportOf(c: Controller.Completion): Report {
    Report(c.tid, c.cm.result, c.cm.duration, c.cm.initTime)
  }

  /** The client's view of a pipeline state. */
  function Abs(s: State): ActivationSpec.State {
    map t | t in s.scheduled ::
      if t in s.ctl.records then ActivationSpec.Pending(s.scheduled[t].am)
      else ActivationSpec.Done(s.scheduled[t].am, Reported(s.ctl.log, t))
  }

  lemma {:induction false} ReportOfLast(log: seq<Controller.Completion>, c: Controller.Completion, t: Tid)
    requires forall d | d in log :: d.tid != c.tid
    ensures Reported(log + [c], t) == if t == c.tid then ReportOf(c) else Reported(log, t)
  {
    if log != [] {
      assert (log + [c])[1..] == log[1..] + [c];
      assert log[0] in log;
      ReportOfLast(log[1..], c, t);
    }
  }

  /** Every event of the pipeline is invisible to the client, submits one activation, or completes
      one pending activation with a report that a session produced for it. */
  lemma StepRefines(k: Config, s: State, e: Event)
    requires ValidConfig(k) && Inv(k, s) && Enabled(k, s, e)
    ensures ActivationSpec.Next(Abs(s), Abs(Step(k, s, e)), Step(k, s, e).results)
  {
    hide ActivationSpec.Next, Abs, Step;
    StepSeen(k, s, e);
    SeenIsNext(k, s, e);
  }

  /** What the client sees of an event: scheduling makes the activation pending, the delivery of a reply
      to a pending activation completes it with the result and the times of that reply, and nothing
      else is seen. */
  ghost predicate Seen(k: Config, s: State, e: Event, a': ActivationSpec.State) {
    match e
    case Schedule(am, code, start) => a' == Abs(s)[k.hash(am.transid) := ActivationSpec.Pending(am)]
    case DeliverReply(m) =>
      var t := m.header.record.transactionId;
      if t in Abs(s) && Abs(s)[t].Pending?
      then a' == Abs(s)[t := ActivationSpec.Done(Abs(s)[t].am, ReportIn(m))] && ReportIn(m) in s.results
      else a' == Abs(s)
    case _ => a' == Abs(s)
  }

  lemma StepSeen(k: Config, s: State, e: Event)
    requires ValidConfig(k) && Inv(k, s) && Enabled(k, s, e)
    ensures Seen(k, s, e, Abs(Step(k, s, e)))
  {
    hide Dispatcher.Inv, Instances.Inv, FramesMatch, RequestsMatch, Abs, Step;
    match e
    case Schedule(am, code, start) => ScheduleSeen(k, s, am, code, start);
    case DeliverReply(m) => ReplySeen(k, s, m);
    case SessionEvent(t, se) => SessionIsOk(s.inst.running, s.frames, t); SessionUnseen(k, s, t, se);
    case _ => OthersUnseen(k, s, e);
  }

  lemma SeenIsNext(k: Config, s: State, e: Event)
    requires ValidConfig(k) && Inv(k, s) && Enabled(k, s, e) && Seen(k, s, e, Abs(Step(k, s, e)))
    ensures ActivationSpec.Next(Abs(s), Abs(Step(k, s, e)), Step(k, s, e).results)
  {
    hide Step, Dispatcher.Inv, Instances.Inv, FramesMatch, RequestsMatch, SessionsMatch;
    match e
    case Schedule(am, code, start) =>
      var t := k.hash(am.transid);
      assert t !in Abs(s) && Abs(Step(k, s, e)) == Abs(s)[t := ActivationSpec.Pending(am)];
    case DeliverReply(m) =>
      OnlySessionsAddResults(k, s, e);
      var r := ReportIn(m);
      if r.tid in Abs(s) && Abs(s)[r.tid].Pending? {
        assert r in Step(k, s, e).results
          && Abs(Step(k, s, e)) == Abs(s)[r.tid := ActivationSpec.Done(Abs(s)[r.tid].am, r)];
      }
    case _ =>
  }

  lemma OthersUnseen(k: Config, s: State, e: Event)
    requires Enabled(k, s, e) && !e.Schedule? && !e.DeliverReply? && !e.SessionEvent?
    ensures Abs(Step(k, s, e)) == Abs(s)
  {
    Unseen(k, s, e);
  }

  lemma SessionUnseen(k: Config, s: State, t: Tid, e: Session.Event)
    requires Enabled(k, s, SessionEvent(t, e)) && Session.PromisesOk(s.frames[t].session)
    ensures Abs(Step(k, s, SessionEvent(t, e))) == Abs(s)
  {
    hide Step, Settle, Session.Step, SendsEmpty;
    SessionEventStep(k, s, t, e);
    SettleFields(k, s, t, Session.Step(s.frames[t].session, e), Time(e));
  }

  lemma ScheduleSeen(k: Config, s: State, am: ActivationMessage, code: string, start: nat)
    requires Enabled(k, s, Schedule(am, code, start)) && RecordsMatch(s.ctl, s.scheduled, s.results)
    ensures Abs(Step(k, s, Schedule(am, code, start))) == Abs(s)[k.hash(am.transid) := ActivationSpec.Pending(am)]
  {
    hide Step;
    var t := k.hash(am.transid);
    assert t !in s.ctl.records;
    ScheduleStep(k, s, am, code, start);
    SubmitInAbs(s, Step(k, s, Schedule(am, code, start)), t, Activation(am, code), start);
  }

  lemma SubmitInAbs(s: State, s': State, t: Tid, a: Activation, start: nat)
    requires t !in s.scheduled && t !in s.ctl.records
    requires s'.scheduled == s.scheduled[t := a] && s'.ctl == Controller.Schedule(s.ctl, t, a.am, start)
    ensures Abs(s') == Abs(s)[t := ActivationSpec.Pending(a.am)]
  {
  }

  lemma ReplySeen(k: Config, s: State, m: Wire.Message)
    requires Enabled(k, s, DeliverReply(m)) && GoodReply(s.results, m)
    requires RecordsMatch(s.ctl, s.scheduled, s.results)
    ensures var t := m.header.record.transactionId; var s' := Step(k, s, DeliverReply(m));
      Abs(s') == if t in Abs(s) && Abs(s)[t].Pending?
                 then Abs(s)[t := ActivationSpec.Done(Abs(s)[t].am, ReportIn(m))] else Abs(s)
  {
    hide Step;
    DeliverReplyStep(k, s, m);
    var s' := Step(k, s, DeliverReply(m));
    var t, r := m.header.record.transactionId, m.payload;
    if t in s.ctl.records {
      var c := Controller.Completion(t, Controller.CompletionOf(s.ctl.records[t].am, m.header.record, r));
      Controller.ResolveOnce(s.ctl, m.header.record, r, m.header.record, r);
      assert !Controller.Completed(s.ctl, t);
      assert forall d | d in s.ctl.log :: d.tid != t;
      assert s'.ctl.log == s.ctl.log + [c] && s'.ctl.records == s.ctl.records - {t};
      CompleteInAbs(s, s', c);
    }
  }

  lemma CompleteInAbs(s: State, s': State, c: Controller.Completion)
    requires c.tid in s.scheduled && c.tid in s.ctl.records && s'.scheduled == s.scheduled
    requires s'.ctl.log == s.ctl.log + [c] && s'.ctl.records == s.ctl.records - {c.tid}
    requires forall d | d in s.ctl.log :: d.tid != c.tid
    ensures Abs(s') == Abs(s)[c.tid := ActivationSpec.Done(s.scheduled[c.tid].am, ReportOf(c))]
  {
    forall u ensures Reported(s'.ctl.log, u) == if u == c.tid then ReportOf(c) else Reported(s.ctl.log, u) {
      ReportOfLast(s.ctl.log, c, u);
    }
  }

  ghost predicate Refines(k: Config, s: State, es: seq<Event>)
    requires IsRun(k, s, es)
    decreases |es|
  {
    es == [] || (
      var s' := Step(k, s, es[0]);
      ActivationSpec.Next(Abs(s), Abs(s'), s'.results) && Refines(k, s', es[1..]))
  }

  /** Every run of the pipeline is a run of the specification. */
  lemma {:induction false} PipelineRefinesSpec(k: Config, s: State, es: seq<Event>)
    requires ValidConfig(k) && Inv(k, s) && IsRun(k, s, es)
    ensures Refines(k, s, es)
    decreases |es|
  {
    if es != [] {
      StepRefines(k, s, es[0]);
      StepInv(k, s, es[0]);
      PipelineRefinesSpec(k, Step(k, s, es[0]), es[1..]);
    }
  }

  // ---- Completions ----

  /** At most one completion per transaction, whatever retries and late replies there are; it has
      the data of that transaction's own activation, the result and the times that one of its own
      sessions reported, and the status code 0, even when the result came from a failed request. */
  lemma CompletedAtMostOnce(k: Config, es: seq<Event>)
    requires ValidConfig(k) && IsRun(k, Init(k), es)
    ensures var s := After(k, Init(k), es);
      && (forall i, j | 0 <= i < j < |s.ctl.log| :: s.ctl.log[i].tid != s.ctl.log[j].tid)
      && (forall c | c in s.ctl.log ::
            && c.tid in s.scheduled && k.hash(s.scheduled[c.tid].am.transid) == c.tid
            && c.cm.transid == s.scheduled[c.tid].am.transid
            && c.cm.activationId == s.scheduled[c.tid].am.activationId
            && c.cm.name == s.scheduled[c.tid].am.actionName
            && c.cm.version == s.scheduled[c.tid].am.actionVersion
            && c.cm.namespaceName == s.scheduled[c.tid].am.namespaceName
            && c.cm.subject == s.scheduled[c.tid].am.subject
            && Report(c.tid, c.cm.result, c.cm.duration, c.cm.initTime) in s.results
            && c.cm.statusCode == 0 && c.cm.start == 0 && c.cm.end == 0)
  {
    Reachable(k, es);
    var s := After(k, Init(k), es);
    forall c | c in s.ctl.log
      ensures GoodCompletion(s.scheduled, s.results, c) && k.hash(s.scheduled[c.tid].am.transid) == c.tid
    {
      assert GoodActivation(k, c.tid, s.scheduled[c.tid]);
    }
  }

  /** A report enters the history only when a session of that very transaction, fed with that
      transaction's arguments, gets an answer: the answer is the result, the run time that from the
      last `/run` to the answer. */
  lemma ResultsComeFromSessions(k: Config, s: State, e: Event, r: Report)
    requires ValidConfig(k) && Inv(k, s) && Enabled(k, s, e)
    requires r in Step(k, s, e).results && r !in s.results
    ensures e.SessionEvent? && e.tid == r.tid && e.e.EReceive? && Session.AnswerOf(e.e.raw, r.result)
    ensures RunsOwn(s, r.tid) && Timed(s.frames[r.tid], r, e.e.now)
  {
    hide Step, Enabled, Inv;
    if e.SessionEvent? {
      SessionAddsResult(k, s, e.tid, e.e, r);
    } else {
      RepliesAreGood(k, s);
      OnlySessionsAddResults(k, s, e);
    }
  }

  lemma RepliesAreGood(k: Config, s: State)
    requires Inv(k, s)
    ensures RecordsMatch(s.ctl, s.scheduled, s.results)
    ensures forall m | m in s.replies :: GoodReply(s.results, m)
  {
  }

  /** The session of `t` has sent a request and has the arguments that were scheduled for `t`. */
  predicate RunsOwn(s: State, t: Tid) {
    && t in s.frames && t in s.scheduled
    && s.frames[t].session.h.args == s.scheduled[t].am.content && s.frames[t].session.h.sent != []
  }

  /** The times of a report made at `now`, in whole milliseconds: from the last `/run` until now; and the
      init time, which is the one measured if the session was initialised, else 1 for a warm start and
      0 for any other. */
  predicate Timed(fr: Frame, r: Report, now: nat) {
    && fr.session.h.runStart <= now
    && 1_000_000 * r.runTime <= now - fr.session.h.runStart < 1_000_000 * (r.runTime + 1)
    && r.initTime == if fr.session.h.isInitialized then fr.session.h.initTime else if fr.kind.Warm? then 1 else 0
  }

  lemma OnlySessionsAddResults(k: Config, s: State, e: Event)
    requires Enabled(k, s, e) && !e.SessionEvent?
    requires RecordsMatch(s.ctl, s.scheduled, s.results)
    requires forall m | m in s.replies :: GoodReply(s.results, m)
    ensures Step(k, s, e).results == s.results
  {
    match e
    case Schedule(am, code, start) => ScheduleStep(k, s, am, code, start);
    case DeliverReply(m) => DeliverReplyStep(k, s, m);
    case _ => Unseen(k, s, e);
  }

  lemma SessionAddsResult(k: Config, s: State, u: Tid, e: Session.Event, r: Report)
    requires ValidConfig(k) && Inv(k, s) && Enabled(k, s, SessionEvent(u, e))
    requires r in Step(k, s, SessionEvent(u, e)).results && r !in s.results
    ensures u == r.tid && e.EReceive? && Session.AnswerOf(e.raw, r.result)
    ensures RunsOwn(s, r.tid) && Timed(s.frames[r.tid], r, e.now)
  {
    hide Inv, Step, Settle, Session.Step, SendsEmpty, Timed;
    OwnSession(k, s, u);
    SessionEventStep(k, s, u, e);
    var x := Session.Step(s.frames[u].session, e);
    SettledResult(k, s, u, x, Time(e), r);
    SessionResult(s.frames[u].session, e);
    ReportIsTimed(s.frames[u], x.h, e, r);
  }

  lemma ReportIsTimed(fr: Frame, h: Session.Handler, e: Session.Event, r: Report)
    requires e.EReceive? && fr.session.h.runStart == h.runStart <= e.now && fr.inv.info.exec.initTime == 0
    requires h.isInitialized == fr.session.h.isInitialized && h.initTime == fr.session.h.initTime
    requires r.runTime == ReplyStats(fr, h, e.now).exec.runTime
    requires r.initTime == ReplyStats(fr, h, e.now).exec.initTime
    ensures Timed(fr, r, e.now)
  {
    Session.MillisAreWhole(h.runStart, e.now);
  }

  lemma SettledResult(k: Config, s: State, u: Tid, x: Session.Session, now: nat, r: Report)
    requires u in s.frames && r in Settle(k, s, u, x, now).results && r !in s.results
    ensures var stats := ReplyStats(s.frames[u], x.h, now);
      r == Report(u, x.h.reply, stats.exec.runTime, stats.exec.initTime)
    ensures x.h.setExecuted > s.frames[u].session.h.setExecuted
  {
    hide Settle, ReplyStats;
    SettleResults(k, s, u, x, now);
  }

  lemma OwnSession(k: Config, s: State, t: Tid)
    requires Inv(k, s) && t in s.frames
    ensures t in s.scheduled && t in s.disp.accepted
    ensures Session.Inv(s.frames[t].session) && Session.NoneEmpty(s.frames[t].session.h)
    ensures Session.PromisesOk(s.frames[t].session)
    ensures s.frames[t].session.h.args == s.scheduled[t].am.content
    ensures s.frames[t].session.h.code in {"", s.scheduled[t].code}
    ensures GoodActivation(k, t, s.scheduled[t]) && s.frames[t].inv == InvocationOf(k, s.scheduled[t])
    ensures s.frames[t].inv.info.exec.initTime == 0
  {
    FrameFacts(k, s, t);
    assert SessionMatches(s.inst.running, t, s.frames[t]);
    assert GoodActivation(k, t, s.scheduled[t]);
  }

  lemma SessionResult(x: Session.Session, e: Session.Event)
    requires Session.Inv(x) && Session.Enabled(x, e)
    requires Session.Step(x, e).h.setExecuted > x.h.setExecuted
    ensures var h' := Session.Step(x, e).h;
      && e.EReceive? && Session.AnswerOf(e.raw, h'.reply) && x.h.sent != []
      && h'.runStart == x.h.runStart <= e.now
      && h'.isInitialized == x.h.isInitialized && h'.initTime == x.h.initTime
  {
    hide Session.Step, Session.AnswerOf;
    Session.StepReports(x, e);
    Session.ResultKeepsInit(x, e);
  }

  // ---- The node under the pipeline ----

  /** In every reachable state of the whole pipeline work is conserved, no core that could serve a
      queued request sleeps, every instance has one owner and serves one function. */
  lemma NodeStaysSafe(k: Config, es: seq<Event>)
    requires ValidConfig(k) && IsRun(k, Init(k), es)
    ensures var s := After(k, Init(k), es);
      && Dispatcher.Conserved(s.disp)
      && |s.disp.cores| == k.disp.cores
      && (forall c: nat | c < k.disp.cores && c != k.disp.ioCore ::
            Dispatcher.Awake(k.disp, |s.disp.queue.order|, s.disp.cores[c]))
      && Instances.SinglyOwned(s.inst)
      && (forall id, f, g | (id, f) in s.inst.served && (id, g) in s.inst.served :: f == g)
  {
    Reachable(k, es);
    NodeIsSafe(k, After(k, Init(k), es).disp, After(k, Init(k), es).inst);
  }

  lemma NodeIsSafe(k: Config, disp: Dispatcher.State, inst: Instances.State)
    requires Dispatcher.Inv(k.disp, disp) && Instances.OwnersOk(inst)
    ensures forall c: nat | c < k.disp.cores && c != k.disp.ioCore ::
      Dispatcher.Awake(k.disp, |disp.queue.order|, disp.cores[c])
    ensures Instances.SinglyOwned(inst)
    ensures forall id, f, g | (id, f) in inst.served && (id, g) in inst.served :: f == g
  {
    forall c: nat | c < k.disp.cores && c != k.disp.ioCore
      ensures Dispatcher.Awake(k.disp, |disp.queue.order|, disp.cores[c])
    {
      assert Dispatcher.CoreOk(k.disp, disp, c);
    }
    Instances.OneOwner(inst);
    Instances.ServesOne(inst);
  }

  // ---- Payloads ----

  /** End to end: what a session sends for a transaction is the code and the arguments that were
      scheduled for it, never empty; the action runner finds them up to newlines. */
  lemma PayloadsAreIntact(k: Config, es: seq<Event>, t: Tid, req: Session.Request)
    requires ValidConfig(k) && IsRun(k, Init(k), es)
    requires t in After(k, Init(k), es).frames && req in After(k, Init(k), es).frames[t].session.h.sent
    ensures var s := After(k, Init(k), es);
      && t in s.scheduled && req.payload != ""
      && req.payload == (if req.path == "/init" then s.scheduled[t].code else s.scheduled[t].am.content)
      && Session.Unwrapped(req.path, Session.PostBody(req.path, req.payload)) == Session.StripNewlines(req.payload)
  {
    Reachable(k, es);
    var s := After(k, Init(k), es);
    OwnSession(k, s, t);
    Session.SentRequests(s.frames[t].session);
    Session.PayloadArrives(req.path, req.payload);
    SentHasCode(s.frames[t].session, req);
  }

  lemma SentHasCode(x: Session.Session, req: Session.Request)
    requires Session.Inv(x) && req in x.h.sent
    ensures req.path == "/init" ==> x.h.code != ""
  {
    var i :| 0 <= i < |x.h.sent| && x.h.sent[i] == req;
    assert i == 0 || i == 1;
  }
}
