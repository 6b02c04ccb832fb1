/** Activations without arguments. The source accepts them, and then asserts that the `/run` request
    it sends has a payload: an activation can take the node down in this way exactly when its
    arguments are empty. */
module EmptyArguments {
  import opened Seuss
  import opened Pipeline
  import Controller
  import Dispatcher
  import HotCache
  import Instances
  import Session
  import Snapshots
  import Wire
  import WorkQueue

  /** The only activation of the run. */
  ghost predicate OnlyActivation(es: seq<Event>, am: ActivationMessage, code: string) {
    forall e | e in es && e.Schedule? :: e.am == am && e.code == code
  }

  ghost predicate TakesNodeDown(k: Config, am: ActivationMessage, code: string) {
    exists es ::
      IsRun(k, Init(k), es) && OnlyActivation(es, am, code) && After(k, Init(k), es).status.EmptyPayload?
  }

  // ---- With arguments the assertion holds ----

  ghost predicate AllHaveArguments(scheduled: map<Tid, Activation>) {
    forall t | t in scheduled :: scheduled[t].am.content != ""
  }

  lemma StepWithArguments(k: Config, s: State, e: Event)
    requires ValidConfig(k) && Inv(k, s) && Enabled(k, s, e)
    requires AllHaveArguments(s.scheduled) && !s.status.EmptyPayload? && (e.Schedule? ==> e.am.content != "")
    ensures AllHaveArguments(Step(k, s, e).scheduled) && !Step(k, s, e).status.EmptyPayload?
  {
    hide Step, Inv, Enabled;
    ScheduledAfter(k, s, e);
    StopsExactlyWhen(k, s, e);
  }

  /** No run whose activations all have arguments ends with the assertion failing. */
  lemma {:induction false} ArgumentsSuffice(k: Config, s: State, es: seq<Event>)
    requires ValidConfig(k) && Inv(k, s) && IsRun(k, s, es)
    requires AllHaveArguments(s.scheduled) && !s.status.EmptyPayload?
    requires forall e | e in es && e.Schedule? :: e.am.content != ""
    ensures !After(k, s, es).status.EmptyPayload?
    decreases |es|
  {
    hide Step, Inv, Enabled, AllHaveArguments;
    if es != [] {
      assert es[0] in es;
      StepWithArguments(k, s, es[0]);
      StepInv(k, s, es[0]);
      ArgumentsSuffice(k, Step(k, s, es[0]), es[1..]);
    }
  }

  // ---- Without arguments it fails ----

  function Moved(s: State, t: Tid, x: Session.Session): State
    requires t in s.frames
  {
    s.(frames := s.frames[t := s.frames[t].(session := x)])
  }

  /** A session event that neither sends an empty request nor reports anything. */
  lemma QuietEvent(k: Config, s: State, t: Tid, e: Session.Event)
    requires s.status == Running && t in s.frames && s.frames[t].loaded
    requires Session.Inv(s.frames[t].session) && Session.Enabled(s.frames[t].session, e) && !SendsEmpty(s, t, e)
    requires var h, h' := s.frames[t].session.h, Session.Step(s.frames[t].session, e).h;
      h'.setExecuted == h.setExecuted && h'.setFinished == h.setFinished
    ensures Enabled(k, s, SessionEvent(t, e))
    ensures Step(k, s, SessionEvent(t, e)) == Moved(s, t, Session.Step(s.frames[t].session, e))
  {
    hide Session.Step, Session.Enabled, SendsEmpty;
    SessionEventStep(k, s, t, e);
  }

  lemma LoudEvent(k: Config, s: State, t: Tid, e: Session.Event)
    requires s.status == Running && t in s.frames && s.frames[t].loaded
    requires Session.Inv(s.frames[t].session) && Session.Enabled(s.frames[t].session, e) && SendsEmpty(s, t, e)
    ensures Enabled(k, s, SessionEvent(t, e)) && Step(k, s, SessionEvent(t, e)).status == EmptyPayload(t)
  {
    hide Session.Step, Session.Enabled, SendsEmpty;
    SessionEventStep(k, s, t, e);
  }

  /** A session without arguments connects and has not reported anything. */
  ghost predicate Connecting(x: Session.Session, code: string) {
    && Session.Inv(x) && x.h.args == "" && x.h.code == code && !x.h.isInitialized
    && x.h.setExecuted == 0 && x.h.setFinished == 0
  }

  lemma StepConnects(code: string) returns (x1: Session.Session, x2: Session.Session)
    ensures Session.Enabled(Session.Init("", code), Session.EConnect(1))
    ensures x1 == Session.Step(Session.Init("", code), Session.EConnect(1))
    ensures Session.Enabled(x1, Session.EConnected(2)) && x2 == Session.Step(x1, Session.EConnected(2))
    ensures Connecting(Session.Init("", code), code) && Connecting(x1, code) && Connecting(x2, code)
    ensures Session.Enabled(x2, Session.ERunConnected(3))
  {
    hide Session.Inv;
    var x0 := Session.Init("", code);
    Session.InitInv("", code);
    x1 := Session.Step(x0, Session.EConnect(1));
    Session.StepInv(x0, Session.EConnect(1));
    x2 := Session.Step(x1, Session.EConnected(2));
    Session.StepInv(x1, Session.EConnected(2));
  }

  lemma StepInitialises(x: Session.Session, code: string, raw: string)
    requires Connecting(x, code) && code != "" && Session.Enabled(x, Session.ERunConnected(3))
    requires '{' in raw && Session.Body(raw) == Session.INIT_ACK && Session.StatusLine(raw) == Session.STATUS_OK
    ensures var x' := Session.Step(x, Session.ERunConnected(3));
      Connecting(x', code) && Session.Enabled(x', Session.EReceive(raw, 4))
  {
    hide Session.Inv, Session.Body, Session.StatusLine;
    Session.StepInv(x, Session.ERunConnected(3));
  }

  lemma Quiet(k: Config, s: State, t: Tid, e: Session.Event, code: string)
    requires s.status == Running && t in s.frames && s.frames[t].loaded
    requires Connecting(s.frames[t].session, code) && Session.Enabled(s.frames[t].session, e)
    requires Connecting(Session.Step(s.frames[t].session, e), code)
    requires e.EConnect? || e.EConnected? || (e.ERunConnected? && code != "")
    ensures Enabled(k, s, SessionEvent(t, e))
    ensures Step(k, s, SessionEvent(t, e)) == Moved(s, t, Session.Step(s.frames[t].session, e))
  {
    hide Session.Step, Session.Enabled, Session.SendsEmpty, Session.Inv, Step;
    Session.SendsEmptyWhen(s.frames[t].session, e);
    QuietEvent(k, s, t, e);
  }

  /** From a frame whose session has just begun to the failing assertion. */
  lemma SessionFails(k: Config, s: State, t: Tid, code: string) returns (es: seq<Event>)
    requires s.status == Running && t in s.frames && s.frames[t].loaded
    requires s.frames[t].session == Session.Init("", code)
    ensures IsRun(k, s, es) && After(k, s, es).status.EmptyPayload?
    ensures forall e | e in es :: !e.Schedule?
  {
    hide Session.Step, Session.Enabled, Session.SendsEmpty, Session.Inv, Session.Init, Step, Enabled;
    var x1, x2 := StepConnects(code);
    var s1, s2 := Moved(s, t, x1), Moved(s, t, x2);
    Quiet(k, s, t, Session.EConnect(1), code);
    Quiet(k, s1, t, Session.EConnected(2), code);
    assert Moved(s1, t, x2) == s2;
    if code == "" {
      es := LastEvent(k, s2, t, Session.ERunConnected(3));
    } else {
      var raw := Session.AckAnswer();
      StepInitialises(x2, code, raw);
      Session.AckIsBody(raw);
      Quiet(k, s2, t, Session.ERunConnected(3), code);
      es := LastEvent(k, Step(k, s2, SessionEvent(t, Session.ERunConnected(3))), t, Session.EReceive(raw, 4));
      es := Prepend(k, s2, SessionEvent(t, Session.ERunConnected(3)), es);
    }
    es := Prepend(k, s1, SessionEvent(t, Session.EConnected(2)), es);
    es := Prepend(k, s, SessionEvent(t, Session.EConnect(1)), es);
  }

  lemma LastEvent(k: Config, s: State, t: Tid, e: Session.Event) returns (es: seq<Event>)
    requires s.status == Running && t in s.frames && s.frames[t].loaded
    requires Session.Inv(s.frames[t].session) && Session.Enabled(s.frames[t].session, e)
    requires s.frames[t].session.h.args == ""
    requires (e.ERunConnected? && s.frames[t].session.h.code == "")
      || (e.EReceive? && !s.frames[t].session.h.isInitialized && Session.AnswerOf(e.raw, "{\"OK\":true}"))
    ensures IsRun(k, s, es) && After(k, s, es).status.EmptyPayload?
    ensures es == [SessionEvent(t, e)]
  {
    hide Session.Step, Session.Enabled, Session.SendsEmpty, Session.Inv, Step;
    Session.SendsEmptyWhen(s.frames[t].session, e);
    LoudEvent(k, s, t, e);
    es := Prepend(k, s, SessionEvent(t, e), []);
  }

  // ---- From the activation to its first session ----

  /** Only the activation `a` has come in; its request is on the wire. */
  ghost predicate OnTheWire(k: Config, s: State, a: Activation) {
    && s.status == Running && RequestOf(k, a) in s.requests
    && s.disp == Dispatcher.Init(k.disp) && s.inst == Instances.Init(Inst(k))
  }

  ghost predicate Queued(k: Config, s: State, inv: Invocation) {
    && s.status == Running && s.inst == Instances.Init(Inst(k))
    && s.disp == Dispatcher.Step(k.disp, Dispatcher.Init(k.disp), Dispatcher.AddWork(inv))
  }

  lemma ScheduleFirst(k: Config, am: ActivationMessage, code: string)
    requires k.hash(am.revision) != 0
    ensures Enabled(k, Init(k), Schedule(am, code, 0))
    ensures OnTheWire(k, Step(k, Init(k), Schedule(am, code, 0)), Activation(am, code))
  {
  }

  lemma DeliverFirst(k: Config, s: State, a: Activation)
    requires OnTheWire(k, s, a)
    ensures Enabled(k, s, DeliverRequest(RequestOf(k, a)))
    ensures Queued(k, Step(k, s, DeliverRequest(RequestOf(k, a))), InvocationOf(k, a))
  {
    hide Dispatcher.Step;
    Wire.RequestArrives(Controller.StatsOf(k.hash, a.am), a.am.content, a.code);
  }

  lemma FirstPoke(k: Dispatcher.Config, inv: Invocation, c: nat)
    requires c < k.cores && c != k.ioCore && k.limit >= 1
    ensures var s := Dispatcher.Step(k, Dispatcher.Init(k), Dispatcher.AddWork(inv));
      && Dispatcher.Enabled(k, s, Dispatcher.Poke(c)) && Dispatcher.Dispatches(k, s, c)
      && s.queue.order == [inv.info.transactionId] && s.queue.table == map[inv.info.transactionId := inv]
  {
  }

  lemma FirstStart(k: Instances.Config, t: Tid, c: nat, fid: Fid)
    requires c < k.cores && fid != 0
    ensures var s := Instances.Init(k);
      && Instances.Enabled(k, s, Instances.Start(t, c, fid, Instances.Hot, 1))
      && Instances.Resolve(k, s, c, fid, Instances.Hot) == Instances.Cold
  {
  }

  lemma PokeFirst(k: Config, s: State, inv: Invocation, c: nat)
    requires Queued(k, s, inv) && c < k.disp.cores && c != k.disp.ioCore && k.disp.limit >= 1
    requires inv.info.functionId != 0
    ensures Enabled(k, s, RunPoke(c, 1))
    ensures var s' := Step(k, s, RunPoke(c, 1)); var t := inv.info.transactionId;
      s'.status == Running && t in s'.frames && s'.frames[t] == NewFrame(c, inv, Instances.Cold)
  {
    hide Dispatcher.Step, Dispatcher.Dispatches, Instances.Step, Instances.Resolve;
    FirstPoke(k.disp, inv, c);
    FirstStart(Inst(k), inv.info.transactionId, c, inv.info.functionId);
  }

  lemma LoadFirst(k: Config, s: State, t: Tid)
    requires s.status == Running && t in s.frames && !s.frames[t].loaded
    ensures Enabled(k, s, LoadDone(t))
    ensures Step(k, s, LoadDone(t)) == s.(frames := s.frames[t := s.frames[t].(loaded := true)])
  {
  }

  lemma EmptyArgumentsFail(k: Config, am: ActivationMessage, code: string) returns (es: seq<Event>)
    requires ValidConfig(k) && k.disp.limit >= 1 && k.disp.cores >= 2
    requires k.hash(am.revision) != 0 && am.content == ""
    ensures IsRun(k, Init(k), es) && After(k, Init(k), es).status.EmptyPayload?
    ensures OnlyActivation(es, am, code)
  {
    hide Step, Enabled, Init, Session.Init;
    var a := Activation(am, code);
    var inv := InvocationOf(k, a);
    var t := inv.info.transactionId;
    var c := if k.disp.ioCore == 0 then 1 else 0;
    ScheduleFirst(k, am, code);
    var s1 := Step(k, Init(k), Schedule(am, code, 0));
    DeliverFirst(k, s1, a);
    var s2 := Step(k, s1, DeliverRequest(RequestOf(k, a)));
    PokeFirst(k, s2, inv, c);
    var s3 := Step(k, s2, RunPoke(c, 1));
    LoadFirst(k, s3, t);
    es := SessionFails(k, Step(k, s3, LoadDone(t)), t, code);
    es := Prepend(k, s3, LoadDone(t), es);
    es := Prepend(k, s2, RunPoke(c, 1), es);
    es := Prepend(k, s1, DeliverRequest(RequestOf(k, a)), es);
    es := Prepend(k, Init(k), Schedule(am, code, 0), es);
  }

  /** An activation can take the node down through the assertion on empty payloads exactly when it
      has no arguments. */
  lemma TakesNodeDownExactlyWhen(k: Config, am: ActivationMessage, code: string)
    requires ValidConfig(k) && k.disp.limit >= 1 && k.disp.cores >= 2 && k.hash(am.revision) != 0
    ensures TakesNodeDown(k, am, code) <==> am.content == ""
  {
    hide Inv, Step, Enabled;
    if am.content == "" {
      var es := EmptyArgumentsFail(k, am, code);
    } else if TakesNodeDown(k, am, code) {
      var es :|
        IsRun(k, Init(k), es) && OnlyActivation(es, am, code) && After(k, Init(k), es).status.EmptyPayload?;
      InitInv(k);
      ArgumentsSuffice(k, Init(k), es);
      assert false;
    }
  }
}
