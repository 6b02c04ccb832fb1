/** One HTTP session with an instance. `Handler` holds the fields of the source's session object;
    each function below is one of its callbacks or helpers. The promises carry the continuations
    that `new_invocation_session` attaches, and these run inside `SetValue`.

    Times are nanoseconds of a monotone wall clock; a timeout of 0 is the cleared time point. */
module Session {
  import opened Seuss

  const CONNECT_TIMEOUT: nat := 5_000_000_000
  const RUN_TIMEOUT: nat := 60_000_000_000
  const STATUS_OK := "HTTP/1.1 200 OK"
  const INIT_ACK := "{\"OK\":true}"

  datatype Request = Request(path: string, payload: string, keepAlive: bool)

  /** `armed` is the deadline the timer library holds for this hook. The `spawned` fields count
      local events not yet run, the `set` fields how often each promise was given its value. */
  datatype Handler = Handler(
    args: string, code: string,
    isConnected: bool, isInitialized: bool,
    timerSet: bool, timeout: nat, armed: Option<nat>,
    reply: string, initStart: nat, runStart: nat, initTime: nat,
    spawnedConnected: nat, spawnedClosed: nat, spawnedAborted: nat,
    setConnected: nat, setInitialized: nat, setExecuted: nat,
    setClosed: nat, setAborted: nat, setFinished: nat, finishedOk: bool,
    sent: seq<Request>)

  function NewHandler(args: string, code: string): Handler {
    Handler(args, code, false, false, false, 0, None, "", 0, 0, 0, 0, 0, 0, 0, 0, 0, 0, 0, 0, false, [])
  }

  /** The duration handed to the timer is truncated to microseconds. */
  function EnableTimer(h: Handler, now: nat): Handler {
    if h.timerSet || now >= h.timeout then h
    else h.(armed := Some(now + (h.timeout - now) / 1000 * 1000), timerSet := true)
  }

  function DisableTimer(h: Handler): Handler {
    h.(armed := if h.timerSet then None else h.armed, timerSet := false, timeout := 0)
  }

  function Connect(h: Handler, now: nat): Handler {
    EnableTimer(h.(timeout := now + CONNECT_TIMEOUT), now)
  }

  function Connected(h: Handler, now: nat): Handler {
    var h1 := DisableTimer(h.(isConnected := true)).(timeout := now + RUN_TIMEOUT);
    var h2 := EnableTimer(h1, now);
    h2.(spawnedConnected := h2.spawnedConnected + 1)
  }

  lemma ConnectedFields(h: Handler, now: nat)
    ensures Connected(h, now) ==
      h.(isConnected := true, timeout := now + RUN_TIMEOUT, armed := Some(now + RUN_TIMEOUT), timerSet := true,
         spawnedConnected := h.spawnedConnected + 1)
  {
  }

  function Close(h: Handler): Handler {
    DisableTimer(h).(isConnected := false, spawnedClosed := h.spawnedClosed + 1)
  }

  function Abort(h: Handler): Handler {
    DisableTimer(h).(isConnected := false, spawnedAborted := h.spawnedAborted + 1)
  }

  function Finish(h: Handler, status: bool): Handler {
    DisableTimer(h).(setFinished := h.setFinished + 1, finishedOk := status)
  }

  function Send(h: Handler, path: string, payload: string, keepAlive: bool, now: nat): Handler {
    h.(sent := h.sent + [Request(path, payload, keepAlive)],
       initStart := if path == "/init" then now else h.initStart,
       runStart := if path == "/run" then now else h.runStart)
  }

  // Setting a promise, together with the continuation attached to it.

  function SetConnected(h: Handler, now: nat): Handler {
    var h1 := h.(setConnected := h.setConnected + 1);
    if h.code != "" then Send(h1, "/init", h.code, true, now) else Send(h1, "/run", h.args, false, now)
  }

  function SetInitialized(h: Handler, now: nat): Handler {
    Send(h.(setInitialized := h.setInitialized + 1, initTime := Millis(h.initStart, now)), "/run", h.args, false, now)
  }

  /** Milliseconds since `start`; the clock is monotone, so `start` is never in the future. */
  function Millis(start: nat, now: nat): nat {
    if now >= start then (now - start) / 1_000_000 else 0
  }

  function SetExecuted(h: Handler): Handler {
    h.(setExecuted := h.setExecuted + 1)
  }

  function SetClosed(h: Handler): Handler {
    Finish(h.(setClosed := h.setClosed + 1), true)
  }

  function SetAborted(h: Handler): Handler {
    Finish(h.(setAborted := h.setAborted + 1), false)
  }

  /** Index of the first `c`, or the length if there is none. */
  function IndexOf(s: string, c: char): (i: nat)
    ensures i <= |s| && c !in s[..i] && (i < |s| ==> s[i] == c)
  {
    if s == "" || s[0] == c then 0 else 1 + IndexOf(s[1..], c)
  }

  function StatusLine(raw: string): string {
    raw[..IndexOf(raw, '\r')]
  }

  function Body(raw: string): string {
    raw[IndexOf(raw, '{')..]
  }

  function Receive(h: Handler, raw: string, now: nat): Handler {
    var response := Body(raw);
    Answer(if StatusLine(raw) != STATUS_OK then SetAborted(h.(reply := response)) else h, response, now)
  }

  /** The first acknowledgement completes the initialisation, anything else is the result. */
  function Answer(h: Handler, response: string, now: nat): Handler {
    if response == INIT_ACK && !h.isInitialized then
      SetInitialized(h.(isInitialized := true), now)
    else
      SetExecuted(h.(reply := response))
  }

  function Fire(h: Handler, now: nat): Handler {
    var h1 := h.(timerSet := false);
    if h1.timeout != 0 && now >= h1.timeout then Abort(h1.(timeout := 0)) else h1
  }

  // ---- What a response means ----

  lemma {:induction false} IndexOfAfter(before: string, c: char, rest: string)
    requires c !in before
    ensures IndexOf(before + [c] + rest, c) == |before|
  {
    var s := before + [c] + rest;
    if before != "" {
      assert s[0] == before[0];
      assert s[1..] == before[1..] + [c] + rest;
      IndexOfAfter(before[1..], c, rest);
    }
  }

  /** The answer in a response: everything from its first brace on. */
  ghost predicate AnswerOf(raw: string, answer: string) {
    exists head :: '{' !in head && raw == head + answer && answer != "" && answer[0] == '{'
  }

  lemma AnswerIsBody(raw: string, answer: string)
    requires AnswerOf(raw, answer)
    ensures answer == Body(raw) && '{' in raw
  {
    var head :| '{' !in head && raw == head + answer && answer != "" && answer[0] == '{';
    assert raw == head + ['{'] + answer[1..];
    IndexOfAfter(head, '{', answer[1..]);
    assert raw[|head|] == '{';
  }

  lemma BodyIsAnswer(raw: string)
    requires '{' in raw
    ensures AnswerOf(raw, Body(raw))
  {
    var i := IndexOf(raw, '{');
    assert raw == raw[..i] + raw[i..];
    assert raw[..|raw|] == raw;
  }

  /** A response means failure exactly when its first line is not that of a good response. */
  lemma FirstLineDecides(raw: string, line: string, rest: string)
    requires '\r' !in line && (raw == line || raw == line + "\r" + rest)
    ensures StatusLine(raw) != STATUS_OK <==> line != "HTTP/1.1 200 OK"
  {
    if raw == line {
      assert IndexOf(raw, '\r') == |raw|;
    } else {
      assert raw == line + ['\r'] + rest;
      IndexOfAfter(line, '\r', rest);
    }
    assert StatusLine(raw) == line;
  }

  /** What a response does to a session. The answer is the rest of the response from its first brace.
      If it reads `{"OK":true}` and the session is not initialised, it starts the run; otherwise it
      is the result. The session fails, on the spot, exactly when the first line is not
      `HTTP/1.1 200 OK`. */
  lemma ReceiveTakes(h: Handler, raw: string, answer: string, line: string, rest: string, now: nat)
    requires AnswerOf(raw, answer) && '\r' !in line && (raw == line || raw == line + "\r" + rest)
    ensures var h' := Receive(h, raw, now); var failed := line != "HTTP/1.1 200 OK";
      && (answer == "{\"OK\":true}" && !h.isInitialized ==>
            && h'.isInitialized && h'.setInitialized == h.setInitialized + 1 && h'.setExecuted == h.setExecuted
            && h'.sent == h.sent + [Request("/run", h.args, false)])
      && (answer != "{\"OK\":true}" || h.isInitialized ==>
            && h'.reply == answer && h'.setExecuted == h.setExecuted + 1
            && h'.isInitialized == h.isInitialized && h'.setInitialized == h.setInitialized && h'.sent == h.sent)
      && h'.setAborted == h.setAborted + (if failed then 1 else 0)
      && h'.setFinished == h.setFinished + (if failed then 1 else 0)
      && (failed ==> !h'.finishedOk && !h'.timerSet && h'.timeout == 0)
      && (!failed ==> h'.finishedOk == h.finishedOk && h'.timerSet == h.timerSet && h'.timeout == h.timeout)
  {
    hide Receive, StatusLine, Body;
    ReceiveFields(h, raw, now);
    AnswerIsBody(raw, answer);
    FirstLineDecides(raw, line, rest);
  }

  // ---- The session and its environment ----

  /** Beside the handler: what the connection has done so far. A session sees one terminal event
      (close, abort, timeout or a failed request); other callbacks may follow it until the session
      is deleted. `late` says that Connected came after the terminal event. An instance answers only
      after it got a request. Local events run in the order they were spawned. */
  datatype Session = Session(
    h: Handler,
    connectCalled: bool, connectedSeen: bool, terminal: bool, late: bool,
    answers: nat, clock: nat, connectAt: nat, connectedAt: nat)

  datatype Event =
    | EConnect(now: nat)
    | EConnected(now: nat)
    | ERunConnected(now: nat)
    | EReceive(raw: string, now: nat)
    | EClose
    | EAbort
    | ERunClosed
    | ERunAborted
    | EFire(now: nat)

  function Init(args: string, code: string): Session {
    Session(NewHandler(args, code), false, false, false, false, 0, 0, 0, 0)
  }

  predicate Enabled(s: Session, e: Event) {
    match e
    case EConnect(now) => !s.connectCalled && now >= s.clock
    case EConnected(now) => s.connectCalled && !s.connectedSeen && now >= s.clock
    case ERunConnected(now) =>
      s.h.spawnedConnected > 0 && (s.late ==> s.h.spawnedClosed + s.h.spawnedAborted == 0) && now >= s.clock
    case EReceive(raw, now) =>
      s.h.sent != [] && '{' in raw && (s.terminal ==> StatusLine(raw) == STATUS_OK) && now >= s.clock
    case EClose => s.connectedSeen && !s.terminal
    case EAbort => s.connectCalled && !s.terminal
    case ERunClosed => s.h.spawnedClosed > 0 && (s.h.spawnedConnected == 0 || s.late)
    case ERunAborted => s.h.spawnedAborted > 0 && (s.h.spawnedConnected == 0 || s.late)
    case EFire(now) => !s.terminal && s.h.armed.Some? && now >= s.h.armed.value && now >= s.clock
  }

  function Step(s: Session, e: Event): Session
    requires Enabled(s, e)
  {
    match e
    case EConnect(now) =>
      s.(h := Connect(s.h, now), connectCalled := true, connectAt := now, clock := now)
    case EConnected(now) =>
      s.(h := Connected(s.h, now), connectedSeen := true, late := s.terminal, connectedAt := now, clock := now)
    case ERunConnected(now) =>
      s.(h := SetConnected(s.h.(spawnedConnected := s.h.spawnedConnected - 1), now), clock := now)
    case EReceive(raw, now) =>
      s.(h := Receive(s.h, raw, now), answers := s.answers + 1, clock := now,
         terminal := s.terminal || StatusLine(raw) != STATUS_OK)
    case EClose => s.(h := Close(s.h), terminal := true)
    case EAbort => s.(h := Abort(s.h), terminal := true)
    case ERunClosed => s.(h := SetClosed(s.h.(spawnedClosed := s.h.spawnedClosed - 1)))
    case ERunAborted => s.(h := SetAborted(s.h.(spawnedAborted := s.h.spawnedAborted - 1)))
    case EFire(now) =>
      var h := Fire(s.h.(armed := None), now);
      s.(h := h, clock := now, terminal := h.spawnedAborted > s.h.spawnedAborted)
  }

  // ---- The invariant ----

  function Bit(b: bool): nat { if b then 1 else 0 }

  function Deadline(s: Session): nat {
    if s.connectedSeen then s.connectedAt + RUN_TIMEOUT else s.connectAt + CONNECT_TIMEOUT
  }

  /** The timer: set for the current deadline while the session waits, and not set after the
      terminal event unless Connected came later. */
  ghost predicate TimerOk(s: Session) {
    && (s.h.timerSet ==> s.connectCalled && s.h.timeout == Deadline(s) && s.h.armed == Some(Deadline(s)))
    && (!s.h.timerSet ==> s.h.timeout == 0 && s.h.armed == None)
    && (s.connectCalled && !s.terminal ==> s.h.timerSet)
    && (s.terminal && s.h.timerSet ==> s.late)
  }

  /** The promises: each is set at most once, except the result, which is set for every answer but
      the acknowledgement; finishing follows the one terminal event. */
  ghost predicate PromisesOk(s: Session) {
    var h := s.h;
    && (s.connectedSeen || s.terminal ==> s.connectCalled)
    && (s.late ==> s.connectedSeen && s.terminal)
    && h.spawnedConnected + h.setConnected == Bit(s.connectedSeen)
    && h.spawnedClosed + h.setClosed + h.spawnedAborted + h.setAborted == Bit(s.terminal)
    && h.setFinished == h.setClosed + h.setAborted
    && (h.setFinished > 0 ==> h.finishedOk == (h.setClosed > 0))
    && (h.setFinished > 0 && !s.late ==> h.spawnedConnected == 0)
    && h.setInitialized == Bit(h.isInitialized)
    && s.answers == h.setInitialized + h.setExecuted
    && (!s.connectCalled ==> h.sent == [])
    && (h.isConnected ==> s.connectedSeen)
  }

  function FirstRequest(h: Handler): Request {
    if h.code != "" then Request("/init", h.code, true) else Request("/run", h.args, false)
  }

  /** The requests: `/init` first if there is code, then `/run`; a second `/run` only follows an
      answer that was taken for an init acknowledgement. */
  ghost predicate RequestsOk(s: Session) {
    var h := s.h;
    && |h.sent| == h.setConnected + h.setInitialized
    && (h.setConnected > 0 ==> h.sent[0] == FirstRequest(h))
    && (h.setConnected > 0 && h.setInitialized > 0 ==> h.sent[1] == Request("/run", h.args, false))
    && (h.setInitialized > 0 ==> h.setConnected > 0)
    && h.runStart <= s.clock && h.initStart <= s.clock
  }

  ghost predicate Inv(s: Session) {
    TimerOk(s) && PromisesOk(s) && RequestsOk(s)
  }

  lemma InitInv(args: string, code: string)
    ensures Inv(Init(args, code))
  {
  }

  predicate IsAck(h: Handler, response: string) {
    response == INIT_ACK && !h.isInitialized
  }

  lemma AnswerFields(h: Handler, response: string, now: nat)
    ensures var h' := Answer(h, response, now);
      if IsAck(h, response) then
        h' == h.(isInitialized := true, setInitialized := h.setInitialized + 1, initTime := h'.initTime,
                 sent := h.sent + [Request("/run", h.args, false)], runStart := now)
      else
        h' == h.(reply := response, setExecuted := h.setExecuted + 1)
  {
  }

  lemma FailFields(h: Handler, response: string)
    ensures var h' := SetAborted(h.(reply := response));
      h' == h.(reply := response, setAborted := h.setAborted + 1, setFinished := h.setFinished + 1,
               finishedOk := false, timerSet := false, timeout := 0, armed := h'.armed)
      && h'.armed == if h.timerSet then None else h.armed
  {
  }

  /** What an answer leaves alone. */
  ghost predicate SameConnection(h: Handler, h': Handler) {
    && h'.args == h.args && h'.code == h.code && h'.isConnected == h.isConnected
    && h'.spawnedConnected == h.spawnedConnected && h'.setConnected == h.setConnected
    && h'.spawnedClosed == h.spawnedClosed && h'.setClosed == h.setClosed
    && h'.spawnedAborted == h.spawnedAborted && h'.initStart == h.initStart
  }

  /** What an answer changes, apart from what a failed request adds. */
  ghost predicate Answered(h: Handler, h': Handler, response: string, now: nat) {
    if IsAck(h, response) then
      && h'.isInitialized && h'.setInitialized == h.setInitialized + 1 && h'.setExecuted == h.setExecuted
      && h'.sent == h.sent + [Request("/run", h.args, false)] && h'.runStart == now
    else
      && h'.isInitialized == h.isInitialized && h'.setInitialized == h.setInitialized
      && h'.setExecuted == h.setExecuted + 1 && h'.reply == response
      && h'.sent == h.sent && h'.runStart == h.runStart && h'.initTime == h.initTime
  }

  /** What a failed request adds: the session is aborted and finished on the spot. */
  ghost predicate Failing(h: Handler, h': Handler, failed: bool) {
    && h'.setAborted == h.setAborted + Bit(failed) && h'.setFinished == h.setFinished + Bit(failed)
    && h'.finishedOk == (h.finishedOk && !failed)
    && h'.timerSet == (h.timerSet && !failed)
    && h'.timeout == (if failed then 0 else h.timeout)
    && h'.armed == if failed && h.timerSet then None else h.armed
  }

  lemma ReceiveFields(h: Handler, raw: string, now: nat)
    ensures var h' := Receive(h, raw, now);
      SameConnection(h, h') && Answered(h, h', Body(raw), now) && Failing(h, h', StatusLine(raw) != STATUS_OK)
  {
    hide Answer, SetAborted;
    FailFields(h, Body(raw));
    AnswerFields(if StatusLine(raw) != STATUS_OK then SetAborted(h.(reply := Body(raw))) else h, Body(raw), now);
  }

  lemma ReceiveTimer(s: Session, raw: string, now: nat)
    requires Inv(s) && Enabled(s, EReceive(raw, now))
    ensures TimerOk(Step(s, EReceive(raw, now)))
  {
    hide Receive, Answered, PromisesOk, RequestsOk;
    ReceiveFields(s.h, raw, now);
  }

  lemma StepTimer(s: Session, e: Event)
    requires Inv(s) && Enabled(s, e)
    ensures TimerOk(Step(s, e))
  {
    hide Receive;
    if e.EReceive? {
      ReceiveTimer(s, e.raw, e.now);
    }
  }

  lemma ReceivePromises(s: Session, raw: string, now: nat)
    requires Inv(s) && Enabled(s, EReceive(raw, now))
    ensures PromisesOk(Step(s, EReceive(raw, now)))
  {
    hide Receive;
    ReceiveFields(s.h, raw, now);
  }

  lemma SpawnPromises(s: Session, e: Event)
    requires Inv(s) && Enabled(s, e) && (e.EConnect? || e.EConnected? || e.EClose? || e.EAbort? || e.EFire?)
    ensures PromisesOk(Step(s, e))
  {
  }

  lemma LocalPromises(s: Session, e: Event)
    requires Inv(s) && Enabled(s, e) && (e.ERunConnected? || e.ERunClosed? || e.ERunAborted?)
    ensures PromisesOk(Step(s, e))
  {
    hide TimerOk;
  }

  lemma StepPromises(s: Session, e: Event)
    requires Inv(s) && Enabled(s, e)
    ensures PromisesOk(Step(s, e))
  {
    if e.EReceive? {
      ReceivePromises(s, e.raw, e.now);
    } else if e.ERunConnected? || e.ERunClosed? || e.ERunAborted? {
      LocalPromises(s, e);
    } else {
      SpawnPromises(s, e);
    }
  }

  lemma ConnectedRequests(s: Session, now: nat)
    requires Inv(s) && Enabled(s, ERunConnected(now))
    ensures RequestsOk(Step(s, ERunConnected(now)))
  {
    assert s.h.sent == [];
  }

  lemma ReceiveRequests(s: Session, raw: string, now: nat)
    requires Inv(s) && Enabled(s, EReceive(raw, now))
    ensures RequestsOk(Step(s, EReceive(raw, now)))
  {
    hide Receive;
    ReceiveFields(s.h, raw, now);
  }

  lemma StepRequests(s: Session, e: Event)
    requires Inv(s) && Enabled(s, e)
    ensures RequestsOk(Step(s, e))
  {
    if e.ERunConnected? {
      ConnectedRequests(s, e.now);
    } else if e.EReceive? {
      ReceiveRequests(s, e.raw, e.now);
    } else {
      assert Step(s, e).h.sent == s.h.sent;
    }
  }

  /** What concerns the requests is left alone. */
  predicate SameRequests(h: Handler, h': Handler) {
    && h'.args == h.args && h'.code == h.code && h'.sent == h.sent
    && h'.runStart == h.runStart && h'.initStart == h.initStart
    && h'.isInitialized == h.isInitialized && h'.initTime == h.initTime
  }

  lemma TimerLeavesRequests(h: Handler, now: nat)
    ensures SameRequests(h, EnableTimer(h, now)) && SameRequests(h, DisableTimer(h))
  {
  }

  lemma CallbacksLeaveRequests(h: Handler, now: nat)
    ensures SameRequests(h, Connect(h, now)) && SameRequests(h, Close(h)) && SameRequests(h, Abort(h))
  {
    hide EnableTimer, DisableTimer;
    TimerLeavesRequests(h.(timeout := now + CONNECT_TIMEOUT), now);
    TimerLeavesRequests(h, now);
  }

  lemma ConnectedLeavesRequests(h: Handler, now: nat)
    ensures SameRequests(h, Connected(h, now))
  {
    hide Connected;
    ConnectedFields(h, now);
  }

  lemma EndingsLeaveRequests(h: Handler)
    ensures SameRequests(h, SetClosed(h)) && SameRequests(h, SetAborted(h))
  {
  }

  lemma FireLeavesRequests(h: Handler, now: nat)
    ensures SameRequests(h, Fire(h, now))
  {
  }

  lemma OthersLeaveRequests(s: Session, e: Event)
    requires Enabled(s, e) && !e.EReceive? && !e.ERunConnected?
    ensures SameRequests(s.h, Step(s, e).h)
  {
    hide Connect, Connected, Close, Abort, Fire, SetClosed, SetAborted;
    match e
    case EConnect(now) => CallbacksLeaveRequests(s.h, now);
    case EConnected(now) => ConnectedLeavesRequests(s.h, now);
    case EClose => CallbacksLeaveRequests(s.h, 0);
    case EAbort => CallbacksLeaveRequests(s.h, 0);
    case EFire(now) => FireLeavesRequests(s.h.(armed := None), now);
    case ERunClosed => EndingsLeaveRequests(s.h.(spawnedClosed := s.h.spawnedClosed - 1));
    case ERunAborted => EndingsLeaveRequests(s.h.(spawnedAborted := s.h.spawnedAborted - 1));
  }

  lemma StepKeepsInput(s: Session, e: Event)
    requires Enabled(s, e)
    ensures Step(s, e).h.args == s.h.args && Step(s, e).h.code == s.h.code
  {
    hide Receive;
    match e
    case EReceive(raw, now) => ReceiveFields(s.h, raw, now);
    case ERunConnected(now) =>
    case _ =>
      hide Step;
      OthersLeaveRequests(s, e);
  }

  lemma StepInv(s: Session, e: Event)
    requires Inv(s) && Enabled(s, e)
    ensures Inv(Step(s, e))
    ensures Step(s, e).h.args == s.h.args && Step(s, e).h.code == s.h.code
  {
    hide Step, TimerOk, PromisesOk, RequestsOk;
    StepTimer(s, e);
    StepPromises(s, e);
    StepRequests(s, e);
    StepKeepsInput(s, e);
  }

  // ---- Over whole runs ----

  ghost predicate IsRun(s: Session, es: seq<Event>)
    decreases |es|
  {
    es == [] || (Enabled(s, es[0]) && IsRun(Step(s, es[0]), es[1..]))
  }

  ghost function After(s: Session, es: seq<Event>): Session
    requires IsRun(s, es)
    decreases |es|
  {
    if es == [] then s else After(Step(s, es[0]), es[1..])
  }

  lemma Prepend(s: Session, e: Event, rest: seq<Event>) returns (es: seq<Event>)
    requires Enabled(s, e) && IsRun(Step(s, e), rest)
    ensures es == [e] + rest && IsRun(s, es) && After(s, es) == After(Step(s, e), rest)
  {
    es := [e] + rest;
    assert es[1..] == rest;
  }

  lemma {:induction false} RunInv(s: Session, es: seq<Event>)
    requires Inv(s) && IsRun(s, es)
    ensures Inv(After(s, es))
    ensures After(s, es).h.args == s.h.args && After(s, es).h.code == s.h.code
    decreases |es|
  {
    if es != [] {
      StepInv(s, es[0]);
      RunInv(Step(s, es[0]), es[1..]);
    }
  }

  /** The session is at the end of some run of its own. */
  ghost predicate Reached(s: Session) {
    exists es :: IsRun(Init(s.h.args, s.h.code), es) && After(Init(s.h.args, s.h.code), es) == s
  }

  lemma InitReached(args: string, code: string)
    ensures Reached(Init(args, code))
  {
    var s := Init(args, code);
    assert IsRun(s, []) && After(s, []) == s;
  }

  lemma {:induction false} RunGoesOn(s: Session, es: seq<Event>, e: Event)
    requires IsRun(s, es) && Enabled(After(s, es), e)
    ensures IsRun(s, es + [e]) && After(s, es + [e]) == Step(After(s, es), e)
    decreases |es|
  {
    hide Enabled, Step;
    if es == [] {
      assert [e][1..] == [] && [] + [e] == [e];
    } else {
      assert (es + [e])[1..] == es[1..] + [e];
      RunGoesOn(Step(s, es[0]), es[1..], e);
    }
  }

  lemma StepReaches(s: Session, e: Event)
    requires Reached(s) && Enabled(s, e)
    ensures Reached(Step(s, e))
  {
    hide Enabled, Step, Init;
    StepKeepsInput(s, e);
    var s0 := Init(s.h.args, s.h.code);
    var es :| IsRun(s0, es) && After(s0, es) == s;
    RunGoesOn(s0, es, e);
  }

  /** No promise of a session but the result is ever set twice, and the result exactly when more
      answers come in than one result and, if there was one, an acknowledgement. Connect never finds
      the session connected. When it finished, a local event is left only if Connected came late. */
  lemma PromisesAreOneShot(args: string, code: string, es: seq<Event>)
    requires IsRun(Init(args, code), es)
    ensures var s := After(Init(args, code), es); var h := s.h;
      && (!s.connectCalled ==> !h.isConnected)
      && h.setConnected <= 1 && h.setInitialized <= 1
      && (h.setExecuted <= 1 <==> s.answers <= 1 + Bit(h.isInitialized))
      && h.setClosed + h.setAborted <= 1 && h.setFinished <= 1
      && (h.setFinished == 1 && !s.late ==> h.spawnedConnected + h.spawnedClosed + h.spawnedAborted == 0)
  {
    InitInv(args, code);
    RunInv(Init(args, code), es);
  }

  /** The timer is set exactly while it is armed, for 5 s after Connect or 60 s after Connected, and
      it is set while the session waits. The callback aborts exactly when the timer is set and this
      time has come, so never after a terminal event unless Connected came late. */
  lemma TimerIsSafe(args: string, code: string, es: seq<Event>, now: nat)
    requires IsRun(Init(args, code), es)
    ensures var s := After(Init(args, code), es);
      && (s.h.timerSet <==> s.h.armed.Some?)
      && (s.h.timerSet && !s.connectedSeen ==> s.h.armed.value == s.connectAt + 5_000_000_000)
      && (s.h.timerSet && s.connectedSeen ==> s.h.armed.value == s.connectedAt + 60_000_000_000)
      && (s.connectCalled && !s.terminal ==> s.h.timerSet)
      && (s.h.timerSet ==> s.connectCalled && (s.terminal ==> s.late))
      && (Fire(s.h, now).spawnedAborted > s.h.spawnedAborted <==> s.h.timerSet && now >= s.h.armed.value)
      && (Enabled(s, EFire(now)) ==>
            && Step(s, EFire(now)).terminal && Step(s, EFire(now)).h.spawnedAborted == 1
            && Step(s, EFire(now)).h.armed == None)
  {
    InitInv(args, code);
    RunInv(Init(args, code), es);
  }

  // ---- Connected after the terminal event ----

  /** The order a session should end in: no timer is set after the terminal event, and no local
      event is left when it finished, which could run after the session is deleted. */
  ghost predicate Clean(s: Session) {
    && (s.terminal ==> !s.h.timerSet)
    && (s.h.setFinished > 0 ==> s.h.spawnedConnected + s.h.spawnedClosed + s.h.spawnedAborted == 0)
  }

  ghost predicate StaysClean(s: Session, es: seq<Event>)
    requires IsRun(s, es)
    decreases |es|
  {
    Clean(s) && (es == [] || StaysClean(Step(s, es[0]), es[1..]))
  }

  /** Connected never comes after the terminal event. */
  ghost predicate ConnectsInTime(s: Session, es: seq<Event>)
    requires IsRun(s, es)
    decreases |es|
  {
    es == [] || ((es[0].EConnected? ==> !s.terminal) && ConnectsInTime(Step(s, es[0]), es[1..]))
  }

  lemma LateIsUnclean(s: Session, now: nat)
    requires Enabled(s, EConnected(now)) && s.terminal
    ensures !Clean(Step(s, EConnected(now)))
  {
  }

  lemma InTimeIsClean(s: Session)
    requires Inv(s) && !s.late
    ensures Clean(s)
  {
  }

  lemma StaysInTime(s: Session, e: Event)
    requires Enabled(s, e) && !s.late && (e.EConnected? ==> !s.terminal)
    ensures !Step(s, e).late
  {
  }

  lemma {:induction false} CleanFrom(s: Session, es: seq<Event>)
    requires Inv(s) && !s.late && IsRun(s, es)
    ensures StaysClean(s, es) <==> ConnectsInTime(s, es)
    decreases |es|
  {
    InTimeIsClean(s);
    if es != [] {
      if es[0].EConnected? && s.terminal {
        LateIsUnclean(s, es[0].now);
      } else {
        StepInv(s, es[0]);
        StaysInTime(s, es[0]);
        CleanFrom(Step(s, es[0]), es[1..]);
      }
    }
  }

  /** A session ends in order, at every point of its run, exactly when Connected does not come after
      the terminal event. */
  lemma CleanExactlyWhen(args: string, code: string, es: seq<Event>)
    requires IsRun(Init(args, code), es)
    ensures StaysClean(Init(args, code), es) <==> ConnectsInTime(Init(args, code), es)
  {
    InitInv(args, code);
    CleanFrom(Init(args, code), es);
  }

  /** The connection times out, and is then established before the abort is handled: the timer is
      set again, and the connected event is left when the session has finished. */
  lemma ConnectsLate(args: string, code: string) returns (es: seq<Event>)
    ensures IsRun(Init(args, code), es) && |es| == 4
    ensures es[..3] == [EConnect(1), EFire(5_000_000_001), EConnected(5_000_000_002)] && es[3] == ERunAborted
    ensures IsRun(Init(args, code), es[..3]) && After(Init(args, code), es[..3]).terminal
    ensures After(Init(args, code), es[..3]).h.timerSet
    ensures After(Init(args, code), es).h.setFinished == 1 && After(Init(args, code), es).h.spawnedConnected == 1
  {
    var s0 := Init(args, code);
    var s1 := Step(s0, EConnect(1));
    var s2 := Step(s1, EFire(5_000_000_001));
    var s3 := Step(s2, EConnected(5_000_000_002));
    es := Prepend(s3, ERunAborted, []);
    es := Prepend(s2, EConnected(5_000_000_002), es);
    es := Prepend(s1, EFire(5_000_000_001), es);
    es := Prepend(s0, EConnect(1), es);
    var start := Prepend(s2, EConnected(5_000_000_002), []);
    start := Prepend(s1, EFire(5_000_000_001), start);
    start := Prepend(s0, EConnect(1), start);
    assert es[..3] == start;
  }

  /** Any answer but an acknowledgement before initialisation is a result. */
  lemma ResultComes(s: Session, raw: string, now: nat)
    requires Enabled(s, EReceive(raw, now))
    requires !AnswerOf(raw, "{\"OK\":true}") || s.h.isInitialized
    ensures Step(s, EReceive(raw, now)).h.setExecuted == s.h.setExecuted + 1
  {
    hide Receive, Body, AnswerOf;
    AckIsBody(raw);
    ReceiveFields(s.h, raw, now);
  }

  // ---- Which requests are sent ----

  function Sent(h: Handler, path: string): nat {
    Count(h.sent, path)
  }

  function Count(rs: seq<Request>, path: string): nat {
    if rs == [] then 0 else Bit(rs[0].path == path) + Count(rs[1..], path)
  }

  lemma CountTwo(a: Request, b: Request, path: string)
    ensures Count([a], path) == Bit(a.path == path)
    ensures Count([a, b], path) == Bit(a.path == path) + Bit(b.path == path)
  {
    assert [a, b][1..] == [b] && [b][1..] == [] && [a][1..] == [];
    assert Count([b], path) == Bit(b.path == path);
  }

  lemma SentRequests(s: Session)
    requires Inv(s)
    ensures Sent(s.h, "/init") <= 1 && (s.h.code == "" ==> Sent(s.h, "/init") == 0)
    ensures Sent(s.h, "/run") <= 2 && (s.h.code != "" ==> Sent(s.h, "/run") == s.h.setInitialized)
    ensures forall r | r in s.h.sent ::
      r == Request("/init", s.h.code, true) || r == Request("/run", s.h.args, false)
  {
    var run := Request("/run", s.h.args, false);
    if |s.h.sent| == 2 {
      assert s.h.sent == [FirstRequest(s.h), run];
    } else if |s.h.sent| == 1 {
      assert s.h.sent == [FirstRequest(s.h)];
    }
    CountTwo(FirstRequest(s.h), run, "/init");
    CountTwo(FirstRequest(s.h), run, "/run");
  }

  /** A session with code sends at most one `/init` and one `/run`, and the `/run` only after the
      init acknowledgement came in. */
  lemma ColdProtocol(args: string, code: string, es: seq<Event>)
    requires code != "" && IsRun(Init(args, code), es)
    ensures var h := After(Init(args, code), es).h;
      && Sent(h, "/init") <= 1 && Sent(h, "/run") <= 1
      && (Sent(h, "/run") == 1 ==> h.isInitialized)
      && h.sent <= [Request("/init", code, true), Request("/run", args, false)]
  {
    InitInv(args, code);
    RunInv(Init(args, code), es);
    SentRequests(After(Init(args, code), es));
  }

  /** After initialisation every answer is the run result, even a second acknowledgement; before it
      an acknowledgement is not a result. */
  lemma Classification(s: Session, raw: string, answer: string, now: nat)
    requires Inv(s) && Enabled(s, EReceive(raw, now)) && AnswerOf(raw, answer)
    ensures var h' := Step(s, EReceive(raw, now)).h;
      && (answer == "{\"OK\":true}" && s.h.setInitialized == 0 ==>
            && h'.setInitialized == 1 && h'.setExecuted == s.h.setExecuted
            && h'.sent == s.h.sent + [Request("/run", s.h.args, false)])
      && (answer != "{\"OK\":true}" || s.h.setInitialized > 0 ==>
            && h'.setInitialized == s.h.setInitialized && h'.setExecuted == s.h.setExecuted + 1
            && h'.sent == s.h.sent && h'.reply == answer)
  {
    hide Receive, Body;
    AnswerIsBody(raw, answer);
    ReceiveFields(s.h, raw, now);
  }

  ghost predicate RunsOnce(args: string, code: string) {
    forall es | IsRun(Init(args, code), es) :: Sent(After(Init(args, code), es).h, "/run") <= 1
  }

  /** The run of a session without code whose result reads like an init acknowledgement. */
  lemma RunsTwice(args: string) returns (es: seq<Event>)
    ensures IsRun(Init(args, ""), es) && Sent(After(Init(args, ""), es).h, "/run") == 2
  {
    var raw := AckAnswer();
    var run := Request("/run", args, false);
    var s1 := Step(Init(args, ""), EConnect(1));
    var s2 := Step(s1, EConnected(2));
    var s3 := Step(s2, ERunConnected(3));
    assert s3.h.sent == [run];
    var s4 := Step(s3, EReceive(raw, 4));
    assert s4.h.sent == [run, run];
    CountTwo(run, run, "/run");
    es := Prepend(s3, EReceive(raw, 4), []);
    es := Prepend(s2, ERunConnected(3), es);
    es := Prepend(s1, EConnected(2), es);
    es := Prepend(Init(args, ""), EConnect(1), es);
  }

  lemma AckAnswer() returns (raw: string)
    ensures '{' in raw && Body(raw) == INIT_ACK && StatusLine(raw) == STATUS_OK
  {
    var head := STATUS_OK + ['\r'];
    raw := head + INIT_ACK;
    assert INIT_ACK == ['{'] + INIT_ACK[1..];
    assert raw == head + ['{'] + INIT_ACK[1..];
    IndexOfAfter(head, '{', INIT_ACK[1..]);
    assert raw == STATUS_OK + ['\r'] + INIT_ACK;
    IndexOfAfter(STATUS_OK, '\r', INIT_ACK);
    assert raw[|head|] == '{';
  }

  /** A session sends at most one `/run` in every run exactly when it was given code. */
  lemma RunsOnceExactlyWhen(args: string, code: string)
    ensures RunsOnce(args, code) <==> code != ""
  {
    if code != "" {
      forall es | IsRun(Init(args, code), es) ensures Sent(After(Init(args, code), es).h, "/run") <= 1 {
        ColdProtocol(args, code, es);
      }
    } else {
      var es := RunsTwice(args);
    }
  }

  // ---- Progress ----

  /** An unfinished session always has an event it can take by itself or by its timer. */
  lemma NeverStuck(s: Session) returns (e: Event)
    requires Inv(s) && s.h.setFinished == 0
    ensures Enabled(s, e) && !e.EReceive?
  {
    if !s.connectCalled {
      e := EConnect(s.clock);
    } else if s.h.spawnedConnected > 0 && !s.late {
      e := ERunConnected(s.clock);
    } else if !s.terminal {
      e := EFire(Deadline(s) + s.clock);
    } else if s.h.spawnedClosed > 0 {
      e := ERunClosed;
    } else {
      e := ERunAborted;
    }
  }

  /** An answer is expected while a request is not yet answered. */
  predicate Expected(s: Session, e: Event) {
    e.EReceive? ==> s.answers < |s.h.sent|
  }

  function Remaining(s: Session): int {
    Bit(!s.connectCalled) + Bit(!s.connectedSeen) + (1 - s.h.setConnected)
    + (if s.answers < 2 then 2 - s.answers else 0) + Bit(!s.terminal) + (1 - s.h.setFinished)
  }

  lemma TimeoutUses(s: Session, now: nat)
    requires Inv(s) && Enabled(s, EFire(now))
    ensures Remaining(Step(s, EFire(now))) < Remaining(s)
  {
  }

  lemma LocalCounts(h: Handler, now: nat)
    ensures SetConnected(h, now).setConnected == h.setConnected + 1
    ensures SetConnected(h, now).setFinished == h.setFinished
    ensures SetClosed(h).setFinished == h.setFinished + 1 && SetClosed(h).setConnected == h.setConnected
    ensures SetAborted(h).setFinished == h.setFinished + 1 && SetAborted(h).setConnected == h.setConnected
  {
  }

  lemma LocalUses(s: Session, e: Event)
    requires PromisesOk(s) && Enabled(s, e) && (e.ERunConnected? || e.ERunClosed? || e.ERunAborted?)
    ensures Remaining(Step(s, e)) < Remaining(s)
  {
    hide PromisesOk, SetConnected, SetClosed, SetAborted, Receive, Connect, Connected, Close, Abort, Fire;
    match e
    case ERunConnected(now) => LocalCounts(s.h.(spawnedConnected := s.h.spawnedConnected - 1), now);
    case ERunClosed => LocalCounts(s.h.(spawnedClosed := s.h.spawnedClosed - 1), 0);
    case ERunAborted => LocalCounts(s.h.(spawnedAborted := s.h.spawnedAborted - 1), 0);
  }

  lemma CallbackUses(s: Session, e: Event)
    requires PromisesOk(s) && Enabled(s, e) && (e.EConnect? || e.EConnected? || e.EClose? || e.EAbort?)
    ensures Remaining(Step(s, e)) < Remaining(s)
  {
  }

  lemma ReceiveUses(s: Session, raw: string, now: nat)
    requires Inv(s) && Enabled(s, EReceive(raw, now))
    ensures Remaining(Step(s, EReceive(raw, now))) <= Remaining(s)
    ensures Expected(s, EReceive(raw, now)) ==> Remaining(Step(s, EReceive(raw, now))) < Remaining(s)
  {
    hide Receive, TimerOk;
    ReceiveFields(s.h, raw, now);
  }

  lemma RemainingBounds(s: Session)
    requires PromisesOk(s)
    ensures 0 <= Remaining(s) <= 7
  {
  }

  /** Beside answers nobody asked for at most seven events happen in a session. */
  lemma SessionsEnd(s: Session, e: Event)
    requires Inv(s) && Enabled(s, e)
    ensures 0 <= Remaining(Step(s, e)) <= Remaining(s) <= 7
    ensures Expected(s, e) ==> Remaining(Step(s, e)) < Remaining(s)
  {
    hide Step, TimerOk, PromisesOk, RequestsOk, Remaining;
    RemainingBounds(s);
    StepPromises(s, e);
    RemainingBounds(Step(s, e));
    match e
    case EReceive(raw, now) => ReceiveUses(s, raw, now);
    case EFire(now) => TimeoutUses(s, now);
    case ERunConnected(now) => LocalUses(s, e);
    case ERunClosed => LocalUses(s, e);
    case ERunAborted => LocalUses(s, e);
    case _ => CallbackUses(s, e);
  }

  /** Answers nobody asked for can go on for ever. */
  lemma {:induction false} AnswersGoOn(s: Session, n: nat) returns (es: seq<Event>)
    requires s.h.sent != []
    ensures IsRun(s, es) && |es| == n
    decreases n
  {
    es := [];
    if n > 0 {
      var raw := AckAnswer();
      var e := EReceive(raw, s.clock);
      ReceiveFields(s.h, raw, s.clock);
      var rest := AnswersGoOn(Step(s, e), n - 1);
      es := Prepend(s, e, rest);
    }
  }

  /** What a step reports outside the session: at most one result, and an end only through the
      local close or abort event or a failed request. */
  lemma StepReports(s: Session, e: Event)
    requires Inv(s) && Enabled(s, e)
    ensures var s' := Step(s, e);
      && s.h.setExecuted <= s'.h.setExecuted <= s.h.setExecuted + 1
      && s.h.setFinished <= s'.h.setFinished <= 1
      && (s'.h.setExecuted > s.h.setExecuted ==>
            e.EReceive? && AnswerOf(e.raw, s'.h.reply) && s'.h.runStart == s.h.runStart <= e.now)
      && (s'.h.setFinished > s.h.setFinished && s'.h.finishedOk ==> e.ERunClosed?)
      && (s'.h.setFinished > s.h.setFinished && !s'.h.finishedOk ==> e.ERunAborted? || e.EReceive?)
  {
    hide Receive, Body, AnswerOf;
    StepPromises(s, e);
    if e.EReceive? {
      BodyIsAnswer(e.raw);
      ReceiveFields(s.h, e.raw, e.now);
    }
  }

  /** A step sends at most one request: the first when the connected event runs, `/run` on an
      acknowledgement. */
  lemma StepSends(s: Session, e: Event)
    requires Inv(s) && Enabled(s, e)
    ensures var sent := Step(s, e).h.sent;
      || (sent == s.h.sent + [FirstRequest(s.h)] && e.ERunConnected?)
      || (sent == s.h.sent + [Request("/run", s.h.args, false)] && e.EReceive? && !s.h.isInitialized)
      || sent == s.h.sent
  {
    hide Receive;
    if e.EReceive? {
      ReceiveFields(s.h, e.raw, e.now);
    }
  }

  /** The source asserts that a request has a payload. */
  predicate SendsEmpty(h: Handler, h': Handler) {
    |h'.sent| > |h.sent| && h'.sent[|h'.sent| - 1].payload == ""
  }

  ghost predicate NoneEmpty(h: Handler) {
    forall r | r in h.sent :: r.payload != ""
  }

  lemma SendsKeepNonempty(s: Session, e: Event)
    requires Inv(s) && Enabled(s, e) && NoneEmpty(s.h) && !SendsEmpty(s.h, Step(s, e).h)
    ensures NoneEmpty(Step(s, e).h)
  {
    hide Step, Inv;
    StepSends(s, e);
  }

  lemma AckIsBody(raw: string)
    requires '{' in raw
    ensures AnswerOf(raw, "{\"OK\":true}") <==> Body(raw) == INIT_ACK
  {
    hide Body;
    BodyIsAnswer(raw);
    if AnswerOf(raw, INIT_ACK) {
      AnswerIsBody(raw, INIT_ACK);
    }
  }

  /** A request without payload is exactly a `/run` without arguments. */
  lemma SendsEmptyWhen(s: Session, e: Event)
    requires Inv(s) && Enabled(s, e)
    ensures SendsEmpty(s.h, Step(s, e).h) <==>
      && s.h.args == ""
      && ((e.ERunConnected? && s.h.code == "")
          || (e.EReceive? && !s.h.isInitialized && AnswerOf(e.raw, "{\"OK\":true}")))
  {
    hide Receive, Body, AnswerOf;
    if e.EReceive? {
      AckIsBody(e.raw);
      ReceiveFields(s.h, e.raw, e.now);
    }
  }

  // ---- Times ----

  /** Whole milliseconds between two times. */
  predicate InMillis(ms: nat, from: nat, to: nat) {
    1_000_000 * ms <= to - from < 1_000_000 * (ms + 1)
  }

  lemma MillisAreWhole(start: nat, now: nat)
    requires start <= now
    ensures InMillis(Millis(start, now), start, now)
  {
  }

  /** A step that sends a request to `path`. */
  predicate SendsTo(s: Session, e: Event, path: string)
    requires Enabled(s, e)
  {
    var sent := Step(s, e).h.sent;
    |sent| > |s.h.sent| && sent[|sent| - 1].path == path
  }

  lemma ConnectedTimes(h: Handler, now: nat)
    ensures var h' := SetConnected(h, now); var path := FirstRequest(h).path;
      && h'.sent == h.sent + [FirstRequest(h)]
      && h'.runStart == (if path == "/run" then now else h.runStart)
      && h'.initStart == (if path == "/init" then now else h.initStart)
  {
  }

  lemma ReceiveTimes(s: Session, raw: string, now: nat)
    requires Enabled(s, EReceive(raw, now))
    ensures var s' := Step(s, EReceive(raw, now));
      && s'.h.initStart == s.h.initStart && s'.clock == now
      && (s'.h.sent == s.h.sent || s'.h.sent == s.h.sent + [Request("/run", s.h.args, false)])
      && s'.h.runStart == (if |s'.h.sent| > |s.h.sent| then now else s.h.runStart)
  {
    hide Receive;
    ReceiveFields(s.h, raw, now);
  }

  /** The start times are noted when the requests are sent, and at no other step. */
  lemma StepTimes(s: Session, e: Event)
    requires Enabled(s, e)
    ensures var s' := Step(s, e);
      && s'.h.runStart == (if SendsTo(s, e, "/run") then s'.clock else s.h.runStart)
      && s'.h.initStart == (if SendsTo(s, e, "/init") then s'.clock else s.h.initStart)
  {
    if e.EReceive? {
      hide Step, Receive;
      ReceiveTimes(s, e.raw, e.now);
    } else if e.ERunConnected? {
      hide SetConnected, Receive;
      ConnectedTimes(s.h.(spawnedConnected := s.h.spawnedConnected - 1), e.now);
    } else {
      hide Step;
      OthersLeaveRequests(s, e);
    }
  }

  /** When the last request to `path` was sent, or `before` if there was none in the run. */
  ghost function LastSentAt(s: Session, es: seq<Event>, path: string, before: nat): nat
    requires IsRun(s, es)
    decreases |es|
  {
    if es == [] then before
    else LastSentAt(Step(s, es[0]), es[1..], path, if SendsTo(s, es[0], path) then Step(s, es[0]).clock else before)
  }

  lemma {:induction false} TimesFrom(s: Session, es: seq<Event>)
    requires IsRun(s, es)
    ensures After(s, es).h.runStart == LastSentAt(s, es, "/run", s.h.runStart)
    ensures After(s, es).h.initStart == LastSentAt(s, es, "/init", s.h.initStart)
    decreases |es|
  {
    hide Step, Enabled, SendsTo;
    if es != [] {
      StepTimes(s, es[0]);
      TimesFrom(Step(s, es[0]), es[1..]);
    }
  }

  /** Over every run the start times are those of the last `/run` and the last `/init`. */
  lemma StartTimes(args: string, code: string, es: seq<Event>)
    requires IsRun(Init(args, code), es)
    ensures After(Init(args, code), es).h.runStart == LastSentAt(Init(args, code), es, "/run", 0)
    ensures After(Init(args, code), es).h.initStart == LastSentAt(Init(args, code), es, "/init", 0)
  {
    TimesFrom(Init(args, code), es);
  }

  lemma AckTime(h: Handler, raw: string, now: nat)
    requires IsAck(h, Body(raw)) && h.initStart <= now
    ensures InMillis(Receive(h, raw, now).initTime, h.initStart, now)
  {
    MillisAreWhole(h.initStart, now);
  }

  /** The init time is the time from the last `/init` to the acknowledgement, in whole milliseconds. */
  lemma InitTimeIsWhole(s: Session, e: Event)
    requires Inv(s) && Enabled(s, e) && !s.h.isInitialized && Step(s, e).h.isInitialized
    ensures InMillis(Step(s, e).h.initTime, s.h.initStart, Step(s, e).clock)
  {
    if e.EReceive? {
      hide Receive, InMillis;
      ReceiveFields(s.h, e.raw, e.now);
      AckTime(s.h, e.raw, e.now);
    }
  }

  lemma InitTimeStays(s: Session, e: Event)
    requires Enabled(s, e) && s.h.isInitialized
    ensures Step(s, e).h.isInitialized && Step(s, e).h.initTime == s.h.initTime
  {
    if e.EReceive? {
      hide Receive;
      ReceiveFields(s.h, e.raw, e.now);
    } else if !e.ERunConnected? {
      hide Step;
      OthersLeaveRequests(s, e);
    } else {
      hide Receive, Connect, Connected, Close, Abort, Fire;
    }
  }

  lemma ResultKeepsInit(s: Session, e: Event)
    requires Enabled(s, e) && e.EReceive? && Step(s, e).h.setExecuted > s.h.setExecuted
    ensures Step(s, e).h.isInitialized == s.h.isInitialized && Step(s, e).h.initTime == s.h.initTime
  {
    hide Receive;
    ReceiveFields(s.h, e.raw, e.now);
  }

  // ---- The request on the wire ----

  function StripNewlines(msg: string): string {
    if msg == "" then ""
    else if msg[0] == '\n' then StripNewlines(msg[1..])
    else [msg[0]] + StripNewlines(msg[1..])
  }

  function IsInit(path: string): bool {
    path == "/init" || path == "/preInit"
  }

  const VALUE_OPEN := "{\"value\": "
  const CODE_OPEN := "{\"main\":\"main\", \"code\":\""
  const CODE_CLOSE := "\"}}"

  function Opening(path: string): string {
    if IsInit(path) then VALUE_OPEN + CODE_OPEN else VALUE_OPEN
  }

  function Closing(path: string): string {
    if IsInit(path) then CODE_CLOSE else "}"
  }

  function PostBody(path: string, msg: string): string {
    Opening(path) + StripNewlines(msg) + Closing(path)
  }

  function Decimal(n: nat): string {
    if n < 10 then ["0123456789"[n]] else Decimal(n / 10) + ["0123456789"[n % 10]]
  }

  function ReadDecimal(s: string): nat {
    if s == "" then 0 else 10 * ReadDecimal(s[..|s| - 1]) + Digit(s[|s| - 1])
  }

  function Digit(c: char): nat {
    if '0' <= c <= '9' then (c as int) - ('0' as int) else 0
  }

  /** The content length reads back as the length of the body. */
  lemma {:induction false} DecimalReadsBack(n: nat)
    ensures ReadDecimal(Decimal(n)) == n
  {
    assert Digit("0123456789"[n % 10]) == n % 10;
    if n >= 10 {
      DecimalReadsBack(n / 10);
      var s := Decimal(n);
      assert s[..|s| - 1] == Decimal(n / 10);
    } else {
      assert Decimal(n)[..0] == "";
    }
  }

  function PostRequest(path: string, msg: string, keepAlive: bool): string {
    var body := PostBody(path, msg);
    "POST " + path + " HTTP/1.0\r\n" + "Content-Type: application/json\r\n"
    + (if keepAlive then "Connection: keep-alive\r\n" else "")
    + "content-length: " + Decimal(|body|) + "\r\n\r\n" + body
  }

  lemma {:induction false} DecimalIsDigits(n: nat)
    ensures Decimal(n) != "" && forall c | c in Decimal(n) :: '0' <= c <= '9'
  {
    if n >= 10 {
      DecimalIsDigits(n / 10);
    }
  }

  /** The text of a request: request line, content type, the keep-alive line exactly if asked for, the
      true length of the body in decimal, and the body, which wraps the payload without newlines. */
  ghost predicate IsRequestText(text: string, path: string, msg: string, keepAlive: bool) {
    exists digits: string, body: string ::
      && text ==
           "POST " + path + " HTTP/1.0\r\n" + "Content-Type: application/json\r\n"
           + (if keepAlive then "Connection: keep-alive\r\n" else "")
           + "content-length: " + digits + "\r\n\r\n" + body
      && digits != "" && (forall c | c in digits :: '0' <= c <= '9') && ReadDecimal(digits) == |body|
      && body == if path == "/init" || path == "/preInit"
                 then "{\"value\": {\"main\":\"main\", \"code\":\"" + StripNewlines(msg) + "\"}}"
                 else "{\"value\": " + StripNewlines(msg) + "}"
  }

  lemma PostText(path: string, msg: string, keepAlive: bool, digits: string, body: string)
    requires body == PostBody(path, msg) && digits == Decimal(|body|)
    ensures PostRequest(path, msg, keepAlive) ==
      "POST " + path + " HTTP/1.0\r\n" + "Content-Type: application/json\r\n"
      + (if keepAlive then "Connection: keep-alive\r\n" else "")
      + "content-length: " + digits + "\r\n\r\n" + body
  {
    hide PostBody, Decimal;
  }

  lemma RequestText(path: string, msg: string, keepAlive: bool)
    ensures IsRequestText(PostRequest(path, msg, keepAlive), path, msg, keepAlive)
  {
    hide PostRequest, PostBody, Decimal, ReadDecimal, StripNewlines;
    var body := PostBody(path, msg);
    DecimalReadsBack(|body|);
    DecimalIsDigits(|body|);
    BodyText(path, msg);
    PostText(path, msg, keepAlive, Decimal(|body|), body);
  }

  lemma BodyText(path: string, msg: string)
    ensures path == "/init" || path == "/preInit" ==>
      PostBody(path, msg) == "{\"value\": {\"main\":\"main\", \"code\":\"" + StripNewlines(msg) + "\"}}"
    ensures path != "/init" && path != "/preInit" ==>
      PostBody(path, msg) == "{\"value\": " + StripNewlines(msg) + "}"
  {
    assert VALUE_OPEN + CODE_OPEN == "{\"value\": {\"main\":\"main\", \"code\":\"";
  }

  /** Dropping newlines works character by character. */
  lemma {:induction false} NewlinesAreDropped(before: string, c: char, after: string)
    ensures StripNewlines(before + [c] + after) ==
      StripNewlines(before) + (if c == '\n' then "" else [c]) + StripNewlines(after)
    ensures StripNewlines("") == ""
  {
    var s := before + [c] + after;
    if before == "" {
      assert s[1..] == after;
    } else {
      assert s[0] == before[0] && s[1..] == before[1..] + [c] + after;
      NewlinesAreDropped(before[1..], c, after);
    }
  }

  /** What the action runner finds in the body of a request. */
  function Unwrapped(path: string, body: string): string
    requires |body| >= |Opening(path)| + |Closing(path)|
  {
    body[|Opening(path)|..|body| - |Closing(path)|]
  }

  lemma {:induction false} StripKeepsOtherText(msg: string)
    ensures '\n' !in StripNewlines(msg)
    ensures '\n' !in msg ==> StripNewlines(msg) == msg
  {
    if msg != "" {
      StripKeepsOtherText(msg[1..]);
      assert msg == [msg[0]] + msg[1..];
    }
  }

  lemma Middle(a: string, b: string, c: string)
    ensures (a + b + c)[|a|..|a + b + c| - |c|] == b
  {
  }

  /** The body carries the payload unchanged, up to its newlines. */
  lemma PayloadArrives(path: string, msg: string)
    ensures |PostBody(path, msg)| >= |Opening(path)| + |Closing(path)|
    ensures Unwrapped(path, PostBody(path, msg)) == StripNewlines(msg)
    ensures StripNewlines(msg) == msg <==> '\n' !in msg
  {
    StripKeepsOtherText(msg);
    Middle(Opening(path), StripNewlines(msg), Closing(path));
  }
}
