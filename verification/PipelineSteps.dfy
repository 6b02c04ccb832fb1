/** What the steps of the pipeline come to, in plain terms: which start an attempt becomes, what a
    session sends back, what becomes of its instance; and, over whole runs, which function an instance
    and a snapshot belong to. */
module PipelineSteps {
  import opened Seuss
  import opened Pipeline
  import PipelineTheorems
  import Dispatcher
  import HotCache
  import Instances
  import Session
  import Snapshots
  import Wire
  import WorkQueue

  // ---- Hot, warm or cold ----

  /** An attempt at `inv` on `core` has begun. It is hot exactly when it may be, hot starts are enabled and
      the core lists a live instance of the function, and then runs on that very instance, without
      code. Otherwise it is warm exactly when it may be and a snapshot of the function is cached, and
      runs on a new instance booted from that snapshot, without code. Otherwise it is cold: a new
      instance of the base snapshot, the code of the invocation, and a checkpoint for the function
      exactly while fewer than 32768 snapshots are cached. */
  ghost predicate Begun(k: Config, s: State, s': State, core: nat, inv: Invocation, mayBeHot: bool, mayBeWarm: bool,
                        id: Id)
  {
    var t, f := inv.info.transactionId, inv.info.functionId;
    && core < |s.inst.hot| && t in s'.frames && t in s'.inst.running
    && var fr, run := s'.frames[t], s'.inst.running[t];
       var idle, cache := s.inst.hot[core].cache.stalled, s.inst.store.cache;
       && s'.frames == s.frames[t := fr]
       && fr.core == core && fr.inv == inv
       && run.core == core && run.fid == f && run.kind == fr.kind
       && (fr.kind.Hot? <==> mayBeHot && k.limits.limit > 0 && f in idle && idle[f] in s.inst.live)
       && (fr.kind.Warm? <==> !fr.kind.Hot? && mayBeWarm && f in cache)
       && (fr.loaded <==> fr.kind.Hot?)
       && fr.session.h.args == inv.args && fr.session.h.code == (if fr.kind.Cold? then inv.code else "")
       && fr.session == Session.Init(fr.session.h.args, fr.session.h.code)
       && run.id == (if fr.kind.Hot? then idle[f] else id)
       && s'.inst.insts == (if fr.kind.Hot? then s.inst.insts else s.inst.insts[id := Instances.Instance(f, core)])
       && s'.inst.image == (if fr.kind.Warm? then s.inst.image[id := cache[f]] else s.inst.image)
       && s'.inst.checkpoints ==
            (if fr.kind.Cold? && |cache| < 32768 then s.inst.checkpoints[id := f] else s.inst.checkpoints)
  }

  lemma AttemptBegins(k: Config, s: State, core: nat, inv: Invocation, from: Instances.Kind, id: Id)
    requires Instances.Inv(Inst(k), s.inst) && core < |s.inst.hot| && Fresh(s, id)
    requires inv.info.functionId != 0 && inv.info.transactionId !in s.inst.running
    ensures Begun(k, s, Attempt(k, s, core, inv, from, id), core, inv, from.Hot?, !from.Cold?, id)
  {
    hide Attempt, Instances.Inv, Instances.Step, Instances.Resolve;
    var t, f := inv.info.transactionId, inv.info.functionId;
    AttemptStep(k, s, core, inv, from, id);
    Instances.StartsAs(Inst(k), s.inst, t, core, f, from, id);
    Instances.StartRunning(Inst(k), s.inst, t, core, f, from, id);
    FrameBegins(core, inv, Instances.Resolve(Inst(k), s.inst, core, f, from));
  }

  lemma FrameBegins(core: nat, inv: Invocation, kind: Instances.Kind)
    ensures var fr := NewFrame(core, inv, kind);
      && fr.core == core && fr.inv == inv && fr.kind == kind && (fr.loaded <==> kind.Hot?)
      && fr.session.h.args == inv.args && fr.session.h.code == (if kind.Cold? then inv.code else "")
      && fr.session == Session.Init(fr.session.h.args, fr.session.h.code)
  {
  }

  lemma PokeDispatches(k: Config, s: State, core: nat, id: Id)
    requires Enabled(k, s, RunPoke(core, id)) && Dispatcher.Dispatches(k.disp, s.disp, core)
    requires s.disp.queue.order[0] in s.disp.queue.table
    ensures var s1 := DispStep(k, s, Dispatcher.Poke(core));
      && s1 == s.(disp := s1.disp)
      && Step(k, s, RunPoke(core, id)) ==
           Attempt(k, s1, core, s.disp.queue.table[s.disp.queue.order[0]], Instances.Hot, id)
  {
    hide Attempt, Dispatcher.Step;
  }

  lemma AttemptKeepsDisp(k: Config, s: State, core: nat, inv: Invocation, from: Instances.Kind, id: Id)
    ensures Attempt(k, s, core, inv, from, id).disp == s.disp
  {
    hide Attempt;
    AttemptFrame(k, s, core, inv, from, id);
  }

  /** A Poke on a core with room takes the oldest request and begins its first attempt, which may be hot,
      warm or cold; on a core without room, or with nothing queued, it begins nothing. */
  lemma PokeStarts(k: Config, s: State, core: nat, id: Id)
    requires ValidConfig(k) && Inv(k, s) && Enabled(k, s, RunPoke(core, id))
    ensures core < |s.disp.cores|
    ensures s.disp.cores[core].counter < k.disp.limit && s.disp.queue.order != [] ==>
      && WorkQueue.Valid(s.disp.queue)
      && var inv := WorkQueue.Contents(s.disp.queue)[0];
         && inv.info.transactionId !in s.frames
         && Begun(k, s, Step(k, s, RunPoke(core, id)), core, inv, true, true, id)
    ensures s.disp.cores[core].counter >= k.disp.limit || s.disp.queue.order == [] ==>
      Step(k, s, RunPoke(core, id)).frames == s.frames && Step(k, s, RunPoke(core, id)).inst == s.inst
  {
    hide Begun, Attempt, Step, FramesMatch, SessionsMatch, RepliesMatch, RecordsMatch, Dispatcher.Step;
    if Dispatcher.Dispatches(k.disp, s.disp, core) {
      WorkQueue.TakeServesOldest(s.disp.queue);
      var t := s.disp.queue.order[0];
      var inv := s.disp.queue.table[t];
      QueuedFacts(k, s, t);
      PokeDispatches(k, s, core, id);
      var s1 := DispStep(k, s, Dispatcher.Poke(core));
      NotRunning(s.inst.running, s.frames, t);
      AttemptBegins(k, s1, core, inv, Instances.Hot, id);
      SameBegun(k, s1, s, Step(k, s, RunPoke(core, id)), core, inv, true, true, id);
    } else {
      PokeIdles(k, s, core, id);
    }
  }

  lemma SameBegun(k: Config, s: State, u: State, s': State, core: nat, inv: Invocation,
                  mayBeHot: bool, mayBeWarm: bool, id: Id)
    requires Begun(k, s, s', core, inv, mayBeHot, mayBeWarm, id) && u.inst == s.inst && u.frames == s.frames
    ensures Begun(k, u, s', core, inv, mayBeHot, mayBeWarm, id)
  {
  }

  lemma PokeIdles(k: Config, s: State, core: nat, id: Id)
    requires Enabled(k, s, RunPoke(core, id)) && !Dispatcher.Dispatches(k.disp, s.disp, core)
    ensures Step(k, s, RunPoke(core, id)).frames == s.frames && Step(k, s, RunPoke(core, id)).inst == s.inst
  {
    hide Attempt, Dispatcher.Step;
  }

  lemma NotRunning(running: map<Tid, Instances.Run>, frames: map<Tid, Frame>, t: Tid)
    requires SessionsMatch(running, frames) && t !in frames
    ensures t !in running
  {
  }

  /** After a failed hot attempt comes a warm or a cold one on the same core, after a failed warm one a cold
      one; a warm attempt is made exactly when a snapshot is cached. */
  lemma RetryStarts(k: Config, s: State, t: Tid, id: Id)
    requires ValidConfig(k) && Inv(k, s) && Enabled(k, s, Resume(t, id))
    requires !s.frames[t].session.h.finishedOk && !s.frames[t].kind.Cold?
    ensures Begun(k, s, Step(k, s, Resume(t, id)), s.frames[t].core, s.frames[t].inv,
                  false, s.frames[t].kind.Hot?, id)
    ensures s.frames[t].inv.info.transactionId == t && Step(k, s, Resume(t, id)).disp == s.disp
  {
    hide Begun, Attempt, Step;
    FrameFacts(k, s, t);
    FinishSessions(s.inst.running, s.frames, t);
    ResumeStep(k, s, t, id);
    var from := if s.frames[t].kind.Hot? then Instances.Warm else Instances.Cold;
    assert s.frames[t].core < |s.inst.hot|;
    AttemptBegins(k, s, s.frames[t].core, s.frames[t].inv, from, id);
    AttemptKeepsDisp(k, s, s.frames[t].core, s.frames[t].inv, from, id);
  }

  /** A session that finished well ends its `Invoke`: the frame is gone, the request finished, and the core
      gets a Poke. */
  lemma ReturnFrees(k: Config, s: State, t: Tid, id: Id)
    requires ValidConfig(k) && Inv(k, s) && Enabled(k, s, Resume(t, id)) && s.frames[t].session.h.finishedOk
    ensures var s' := Step(k, s, Resume(t, id)); var c := s.frames[t].core;
      && s'.frames == s.frames - {t} && s'.inst == s.inst
      && s'.disp.finished == s.disp.finished[t := s.frames[t].inv]
      && c < |s.disp.cores| == |s'.disp.cores|
      && s'.disp.cores[c].pokes == s.disp.cores[c].pokes + 1
      && s'.disp.cores[c].frames == s.disp.cores[c].frames - {t}
  {
    hide SessionsMatch, RepliesMatch, RecordsMatch, RequestsMatch, Instances.Inv;
    FinishFrames(k, s.disp, s.frames, t);
    assert Dispatcher.InFrames(s.disp, t, s.frames[t].core);
  }

  // ---- Answers and ends ----

  /** A session event with a result sends exactly one reply: the answer, the transaction and the function
      of the invocation, status 0 and the times of the report. Any other session event sends none. */
  lemma AnswerIsSent(k: Config, s: State, t: Tid, e: Session.Event)
    requires ValidConfig(k) && Inv(k, s) && Enabled(k, s, SessionEvent(t, e))
    ensures var s' := Step(k, s, SessionEvent(t, e)); var h := s.frames[t].session.h;
      || s'.replies == s.replies
      || exists r: Report ::
           && r.tid == t && e.EReceive? && Session.AnswerOf(e.raw, r.result)
           && PipelineTheorems.Timed(s.frames[t], r, e.now)
           && s'.results == s.results + {r}
           && s'.replies == s.replies + multiset{Wire.Message(
                Wire.Header(Wire.Reply, |r.result|, s.frames[t].inv.info.(argsSize := |r.result|,
                  exec := ExecStats(r.runTime, r.initTime, false))), r.result)}
    ensures e.EReceive? && (!Session.AnswerOf(e.raw, "{\"OK\":true}") || s.frames[t].session.h.isInitialized) ==>
      Step(k, s, SessionEvent(t, e)).replies != s.replies
  {
    hide Inv, Step, Settle, Session.Step, Session.SendsEmpty, PipelineTheorems.Timed, ReplyStats;
    PipelineTheorems.OwnSession(k, s, t);
    SessionEventStep(k, s, t, e);
    var fr, x := s.frames[t], Session.Step(s.frames[t].session, e);
    Session.SendsEmptyWhen(fr.session, e);
    if e.EReceive? && (!Session.AnswerOf(e.raw, "{\"OK\":true}") || fr.session.h.isInitialized) {
      Session.ResultComes(fr.session, e.raw, e.now);
      assert e == Session.EReceive(e.raw, e.now);
    }
    if !SendsEmpty(s, t, e) {
      SettleResults(k, s, t, x, Time(e));
      if x.h.setExecuted > fr.session.h.setExecuted {
        PipelineTheorems.SessionResult(fr.session, e);
        var stats := ReplyStats(fr, x.h, e.now);
        var r := Report(t, x.h.reply, stats.exec.runTime, stats.exec.initTime);
        PipelineTheorems.ReportIsTimed(fr, x.h, e, r);
        ReplyText(fr, x.h, e.now, r);
        assert s.replies + multiset{Wire.EncodeReply(stats, x.h.reply)} != s.replies by {
          assert (s.replies + multiset{Wire.EncodeReply(stats, x.h.reply)})[Wire.EncodeReply(stats, x.h.reply)]
            == s.replies[Wire.EncodeReply(stats, x.h.reply)] + 1;
        }
      }
    }
  }

  lemma ReplyText(fr: Frame, h: Session.Handler, now: nat, r: Report)
    requires var stats := ReplyStats(fr, h, now);
      r.result == h.reply && r.runTime == stats.exec.runTime && r.initTime == stats.exec.initTime
    ensures Wire.EncodeReply(ReplyStats(fr, h, now), h.reply) ==
      Wire.Message(Wire.Header(Wire.Reply, |r.result|, fr.inv.info.(argsSize := |r.result|,
        exec := ExecStats(r.runTime, r.initTime, false))), r.result)
  {
  }

  /** The run of `t` is over: its instance is kept exactly when the session closed and the cache of its core
      has room, its count is within the limit and no instance is idle for its function; otherwise it is
      told to halt. */
  ghost predicate Parted(limits: HotCache.Limits, s: Instances.State, s': Instances.State, t: Tid, closed: bool) {
    && t in s.running && s.running[t].core < |s.hot| == |s'.hot|
    && var run := s.running[t];
       var c := s.hot[run.core].cache;
       var kept := closed && |c.stalled| < limits.limit && run.fid !in c.stalled
                   && (run.id in c.usage ==> c.usage[run.id] <= limits.reuse);
       && s'.running == s.running - {t}
       && s'.place == s.place[run.id := if kept then Instances.Stalled else Instances.HaltSignalled]
       && s'.halts == s.halts + (if kept then multiset{} else multiset{run.id})
       && s'.hot[run.core].cache.stalled == (if kept then c.stalled[run.fid := run.id] else c.stalled)
  }

  predicate Finishes(s: State, t: Tid, e: Session.Event)
    requires t in s.frames && Session.Enabled(s.frames[t].session, e)
  {
    Session.Step(s.frames[t].session, e).h.setFinished > s.frames[t].session.h.setFinished
  }

  lemma FinishKeepsOrHalts(k: Config, s: State, t: Tid, e: Session.Event)
    requires Enabled(k, s, SessionEvent(t, e)) && !SendsEmpty(s, t, e) && Finishes(s, t, e)
    requires ValidConfig(k) && Inv(k, s)
    ensures Parted(k.limits, s.inst, Step(k, s, SessionEvent(t, e)).inst, t, e.ERunClosed?)
  {
    hide Inv, Step, Settle, Session.Step, SendsEmpty, Instances.Step;
    PipelineTheorems.OwnSession(k, s, t);
    var x := Session.Step(s.frames[t].session, e);
    SessionEventStep(k, s, t, e);
    Session.StepReports(s.frames[t].session, e);
    FinishCanEnd(k, s, t, e, x);
    SettleInst(k, s, t, x, Time(e));
    Instances.EndsAs(Inst(k), s.inst, t, x.h.finishedOk);
  }

  /** As long as the session goes on its instance stays where it is. */
  lemma GoesOnUnchanged(k: Config, s: State, t: Tid, e: Session.Event)
    requires Enabled(k, s, SessionEvent(t, e)) && !SendsEmpty(s, t, e) && !Finishes(s, t, e)
    requires Inv(k, s)
    ensures Step(k, s, SessionEvent(t, e)).inst == s.inst
  {
    hide Inv, Step, Settle, Session.Step, SendsEmpty;
    PipelineTheorems.OwnSession(k, s, t);
    SessionEventStep(k, s, t, e);
    SettleInst(k, s, t, Session.Step(s.frames[t].session, e), Time(e));
  }

  lemma FinishCanEnd(k: Config, s: State, t: Tid, e: Session.Event, x: Session.Session)
    requires t in s.frames && s.frames[t].loaded && Session.Enabled(s.frames[t].session, e) && !SendsEmpty(s, t, e)
    requires x == Session.Step(s.frames[t].session, e) && x.h.setFinished > s.frames[t].session.h.setFinished
    requires ValidConfig(k) && Inv(k, s)
    ensures Instances.Inv(Inst(k), s.inst) && t in s.inst.running && s.inst.running[t].core < |s.inst.hot|
    ensures CanStep(k, s.inst, Instances.End(t, x.h.finishedOk))
  {
    hide Session.Step, Dispatcher.Inv, FramesMatch, SessionsMatch, Instances.OwnersOk, Instances.CountsAtHome;
    hide RequestsMatch, RepliesMatch, RecordsMatch, CanStep, Instances.ImagesOwn;
    FrameCore(k, s, t);
    SessionFrames(s.inst.running, s.frames, t, e);
    EndKeeps(k, s.inst, t, x.h.finishedOk);
  }
}
