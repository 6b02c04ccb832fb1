/** The session object of the source, method by method. Each method is proved against the function
    of the same name over the session's handler value; what the session guarantees over whole runs
    is proved about those functions. */
module InvocationSession {
  import opened Seuss
  import Session

  class InvocationSession {
    const srcPort: nat
    const args: string   // captured by the callbacks
    const code: string
    var isConnected: bool
    var isInitialized: bool
    var timerSet: bool
    var timeout: nat
    var armed: Option<nat>
    var reply: string
    var previousRequest: string
    var initStartTime: nat
    var runStartTime: nat
    var initTime: nat
    var spawnedConnected: nat
    var spawnedClosed: nat
    var spawnedAborted: nat
    var setConnected: nat
    var setInitialized: nat
    var setExecuted: nat
    var setClosed: nat
    var setAborted: nat
    var setFinished: nat
    var finishedOk: bool
    var sent: seq<Session.Request>

    function Abs(): Session.Handler
      reads this
    {
      Session.Handler(args, code, isConnected, isInitialized, timerSet, timeout, armed, reply,
        initStartTime, runStartTime, initTime, spawnedConnected, spawnedClosed, spawnedAborted,
        setConnected, setInitialized, setExecuted, setClosed, setAborted, setFinished, finishedOk, sent)
    }

    constructor (srcPort: nat, args: string, code: string)
      ensures Abs() == Session.NewHandler(args, code) && this.srcPort == srcPort
    {
      this.srcPort, this.args, this.code := srcPort, args, code;
      isConnected, isInitialized, timerSet, timeout, armed := false, false, false, 0, None;
      reply, previousRequest, initStartTime, runStartTime, initTime := "", "", 0, 0, 0;
      spawnedConnected, spawnedClosed, spawnedAborted := 0, 0, 0;
      setConnected, setInitialized, setExecuted := 0, 0, 0;
      setClosed, setAborted, setFinished, finishedOk, sent := 0, 0, 0, false, [];
    }

    method EnableTimer(now: nat)
      modifies this`timerSet, this`armed
      ensures Abs() == Session.EnableTimer(old(Abs()), now)
      ensures old(timerSet) || now >= timeout ==> timerSet == old(timerSet) && armed == old(armed)
      ensures !old(timerSet) && now < timeout ==>
        timerSet && armed.Some? && armed.value <= timeout < armed.value + 1000 && (armed.value - now) % 1000 == 0
    {
      if timerSet || now >= timeout {
        return;
      }
      var micros := (timeout - now) / 1000;
      armed := Some(now + micros * 1000);
      timerSet := true;
    }

    method DisableTimer()
      modifies this`timerSet, this`armed, this`timeout
      ensures Abs() == Session.DisableTimer(old(Abs()))
      ensures !timerSet && timeout == 0 && armed == if old(timerSet) then None else old(armed)
    {
      if timerSet {
        armed := None;
      }
      timerSet := false;
      timeout := 0;
    }

    /** The source stops if the session is connected already or has no source port. */
    method Connect(now: nat)
      requires !isConnected && srcPort != 0
      modifies this`timerSet, this`armed, this`timeout
      ensures Abs() == Session.Connect(old(Abs()), now)
      ensures timeout == now + 5_000_000_000
      ensures !old(timerSet) ==> timerSet && armed == Some(now + 5_000_000_000)
    {
      timeout := now + Session.CONNECT_TIMEOUT;
      EnableTimer(now);
    }

    method Connected(now: nat)
      modifies this`isConnected, this`timerSet, this`armed, this`timeout, this`spawnedConnected
      ensures Abs() == Session.Connected(old(Abs()), now)
      ensures isConnected && timeout == now + 60_000_000_000
      ensures timerSet && armed == Some(now + 60_000_000_000)
      ensures spawnedConnected == old(spawnedConnected) + 1
    {
      hide Session.Connected;
      Session.ConnectedFields(Abs(), now);
      isConnected := true;
      DisableTimer();
      timeout := now + Session.RUN_TIMEOUT;
      EnableTimer(now);
      spawnedConnected := spawnedConnected + 1;
    }

    method Close()
      modifies this`isConnected, this`timerSet, this`armed, this`timeout, this`spawnedClosed
      ensures Abs() == Session.Close(old(Abs()))
      ensures !isConnected && !timerSet && timeout == 0 && spawnedClosed == old(spawnedClosed) + 1
    {
      DisableTimer();
      isConnected := false;
      spawnedClosed := spawnedClosed + 1;
    }

    method Abort()
      modifies this`isConnected, this`timerSet, this`armed, this`timeout, this`spawnedAborted
      ensures Abs() == Session.Abort(old(Abs()))
      ensures !isConnected && !timerSet && timeout == 0 && spawnedAborted == old(spawnedAborted) + 1
    {
      DisableTimer();
      isConnected := false;
      spawnedAborted := spawnedAborted + 1;
    }

    method Finish(status: bool)
      modifies this`timerSet, this`armed, this`timeout, this`setFinished, this`finishedOk
      ensures Abs() == Session.Finish(old(Abs()), status)
      ensures !timerSet && timeout == 0 && setFinished == old(setFinished) + 1 && finishedOk == status
    {
      DisableTimer();
      setFinished := setFinished + 1;
      finishedOk := status;
    }

    method HttpPostRequest(path: string, msg: string, keepAlive: bool) returns (r: string)
      modifies this`previousRequest
      ensures r == Session.PostRequest(path, msg, keepAlive) && previousRequest == r
      ensures Session.IsRequestText(r, path, msg, keepAlive)
    {
      var stripped := Session.StripNewlines(msg);
      var payload := Session.VALUE_OPEN;
      if path == "/init" || path == "/preInit" {
        payload := payload + Session.CODE_OPEN + stripped + Session.CODE_CLOSE;
      } else {
        payload := payload + stripped + "}";
      }
      r := "POST " + path + " HTTP/1.0\r\n" + "Content-Type: application/json\r\n";
      r := r + if keepAlive then "Connection: keep-alive\r\n" else "";
      r := r + "content-length: " + Session.Decimal(|payload|) + "\r\n\r\n" + payload;
      previousRequest := r;
      Session.RequestText(path, msg, keepAlive);
    }

    /** The source asserts that there is something to send. */
    method SendHttpRequest(path: string, payload: string, keepAlive: bool, now: nat) returns (wire: string)
      requires payload != ""
      modifies this`previousRequest, this`initStartTime, this`runStartTime, this`sent
      ensures Abs() == Session.Send(old(Abs()), path, payload, keepAlive, now)
      ensures wire == Session.PostRequest(path, payload, keepAlive)
      ensures sent == old(sent) + [Session.Request(path, payload, keepAlive)]
    {
      hide Session.PostRequest, Session.IsRequestText;
      wire := HttpPostRequest(path, payload, keepAlive);
      if path == "/init" {
        initStartTime := now;
      } else if path == "/run" {
        runStartTime := now;
      }
      sent := sent + [Session.Request(path, payload, keepAlive)];
    }

    method SetConnected(now: nat)
      requires args != ""
      modifies this`setConnected, this`previousRequest, this`initStartTime, this`runStartTime, this`sent
      ensures Abs() == Session.SetConnected(old(Abs()), now)
      ensures setConnected == old(setConnected) + 1
      ensures sent == old(sent) +
        [if code != "" then Session.Request("/init", code, true) else Session.Request("/run", args, false)]
    {
      hide Session.PostRequest, Session.IsRequestText;
      setConnected := setConnected + 1;
      if code != "" {
        var wire := SendHttpRequest("/init", code, true, now);
      } else {
        var wire := SendHttpRequest("/run", args, false, now);
      }
    }

    method SetInitialized(now: nat)
      requires args != ""
      modifies this`setInitialized, this`initTime, this`previousRequest, this`initStartTime, this`runStartTime,
        this`sent
      ensures Abs() == Session.SetInitialized(old(Abs()), now)
      ensures setInitialized == old(setInitialized) + 1
      ensures sent == old(sent) + [Session.Request("/run", args, false)]
      ensures old(initStartTime) <= now ==>
        1_000_000 * initTime <= now - old(initStartTime) < 1_000_000 * (initTime + 1)
    {
      hide Session.PostRequest, Session.IsRequestText;
      setInitialized := setInitialized + 1;
      initTime := Session.Millis(initStartTime, now);
      var wire := SendHttpRequest("/run", args, false, now);
    }

    method SetClosed()
      modifies this`setClosed, this`timerSet, this`armed, this`timeout, this`setFinished, this`finishedOk
      ensures Abs() == Session.SetClosed(old(Abs()))
      ensures setClosed == old(setClosed) + 1 && setFinished == old(setFinished) + 1 && finishedOk
      ensures !timerSet && timeout == 0
    {
      setClosed := setClosed + 1;
      Finish(true);
    }

    method SetAborted()
      modifies this`setAborted, this`timerSet, this`armed, this`timeout, this`setFinished, this`finishedOk
      ensures Abs() == Session.SetAborted(old(Abs()))
      ensures setAborted == old(setAborted) + 1 && setFinished == old(setFinished) + 1 && !finishedOk
      ensures !timerSet && timeout == 0
    {
      setAborted := setAborted + 1;
      Finish(false);
    }

    /** A response; the source cuts it at its first brace, which must be there. */
    method Receive(raw: string, now: nat)
      requires '{' in raw && args != ""
      modifies this
      ensures Abs() == Session.Receive(old(Abs()), raw, now)
      ensures var response := raw[Session.IndexOf(raw, '{')..];
        && (response == "{\"OK\":true}" && !old(isInitialized) ==>
              && isInitialized && setInitialized == old(setInitialized) + 1 && setExecuted == old(setExecuted)
              && sent == old(sent) + [Session.Request("/run", args, false)])
        && (response != "{\"OK\":true}" || old(isInitialized) ==>
              && isInitialized == old(isInitialized) && setInitialized == old(setInitialized)
              && setExecuted == old(setExecuted) + 1 && sent == old(sent) && reply == response)
      ensures var failed := raw[..Session.IndexOf(raw, '\r')] != "HTTP/1.1 200 OK";
        && setAborted == old(setAborted) + (if failed then 1 else 0)
        && setFinished == old(setFinished) + (if failed then 1 else 0)
    {
      hide Session.Answer, Session.SetAborted, Session.IndexOf;
      var response := raw[Session.IndexOf(raw, '{')..];
      var httpStatus := raw[..Session.IndexOf(raw, '\r')];
      if httpStatus != Session.STATUS_OK {
        reply := response;
        SetAborted();
      }
      Answer(response, now);
    }

    method Answer(response: string, now: nat)
      requires args != ""
      modifies this`isInitialized, this`reply, this`setExecuted, this`setInitialized, this`initTime,
        this`previousRequest, this`initStartTime, this`runStartTime, this`sent
      ensures Abs() == Session.Answer(old(Abs()), response, now)
      ensures response == "{\"OK\":true}" && !old(isInitialized) ==>
        && isInitialized && setInitialized == old(setInitialized) + 1 && setExecuted == old(setExecuted)
        && sent == old(sent) + [Session.Request("/run", args, false)] && reply == old(reply)
      ensures response != "{\"OK\":true}" || old(isInitialized) ==>
        && isInitialized == old(isInitialized) && setInitialized == old(setInitialized)
        && setExecuted == old(setExecuted) + 1 && sent == old(sent) && reply == response
    {
      if response == Session.INIT_ACK && !isInitialized {
        isInitialized := true;
        SetInitialized(now);
      } else {
        reply := response;
        setExecuted := setExecuted + 1;
      }
    }

    /** The timer's callback. */
    method Fire(now: nat)
      modifies this`isConnected, this`timerSet, this`armed, this`timeout, this`spawnedAborted
      ensures Abs() == Session.Fire(old(Abs()), now)
      ensures !timerSet
      ensures spawnedAborted == old(spawnedAborted) + if old(timeout) != 0 && now >= old(timeout) then 1 else 0
      ensures old(timeout) != 0 && now >= old(timeout) ==> !isConnected && timeout == 0
      ensures old(timeout) == 0 || now < old(timeout) ==> isConnected == old(isConnected) && timeout == old(timeout)
    {
      timerSet := false;
      if timeout != 0 && now >= timeout {
        timeout := 0;
        Abort();
      }
    }
  }
}
