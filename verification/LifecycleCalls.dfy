/** What a caller of the start/stop protocol may rely on when its call returns. */
module LifecycleCalls {
  import opened Options
  import opened Lifecycle

  ghost predicate CertOrStopped(s: State) {
    s.stopped || s.cert.Some?
  }

  // ---- The log only grows ----

  /** The step is t's: others keep their records, the log and the closed channels only grow. */
  ghost predicate Forward(s: State, s': State, t: Thread) {
    && t in s.calls && t in s'.calls && s'.calls == s.calls[t := s'.calls[t]]
    && s'.calls[t].kind == s.calls[t].kind
    && s.log <= s'.log && s.nextGen <= s'.nextGen && s'.closed == s.closed && (s.stopped ==> s'.stopped)
  }

  /** Only t's position moves, and what the function itself changes. */
  ghost predicate Moves(s: State, s': State, t: Thread) {
    Forward(s, s', t) && s'.calls[t] == s.calls[t].(pc := s'.calls[t].pc)
  }

  lemma StartMoves(s: State, t: Thread)
    requires t in s.calls
    ensures var s' := LookBeforeStart(s, t);
            && Moves(s, s', t)
            && (s'.calls[t].pc.StartWait? || s'.calls[t].pc.StartLaunch? ||
                (s'.calls[t].pc == ReleaseOps && CertOrStopped(s)))
    ensures var s' := LaunchCert(s, t);
            Moves(s, s', t) && s'.calls[t].pc == ReleaseOps && (CertOrStopped(s) || CertOrStopped(s'))
  {
  }

  lemma StopMoves(s: State, t: Thread, queue: bool, worker: Option<Gen>)
    requires t in s.calls
    ensures var s' := TakeWorker(s, t, queue);
            && Moves(s, s', t)
            && (s'.calls[t].pc.StopRegister?
                 || (s.certStop.Some? && s'.calls[t].pc == StopAwait(s.certStop.value, true)))
    ensures var s' := RegisterStop(s, t, queue, worker);
            && Moves(s, s', t)
            && s'.calls[t].pc == if !queue && worker.None? then ReleaseOps else StopAwait(s.nextStop, true)
  {
  }

  lemma SyncMoves(s: State, t: Thread)
    requires t in s.calls
    ensures var s' := JoinSyncStop(s, t);
            && Moves(s, s', t)
            && s'.calls[t].pc == SyncAwait(if s.syncStop.Some? then s.syncStop.value else s.nextStop)
    ensures var s' := TryStartSync(s, t);
            && Moves(s, s', t)
            && (s'.calls[t].pc.SyncWait? || (s'.calls[t].pc.Done? && (s.stopped || s'.log == s.log + [SyncStarted])))
    ensures Forward(s, BeginShutdown(s, t), t)
  {
  }

  lemma TokenMoves(s: State, t: Thread, ok: bool, got: Pc, missed: Pc)
    requires t in s.calls
    ensures var s' := Acquire(s, t, ok, got, missed);
            && Moves(s, s', t)
            && (s'.calls[t].pc == s.calls[t].pc || s'.calls[t].pc == if ok then got else missed)
  {
    hide Moves;
    StayMoves(s, t);
    if s.ops.None? && ok {
      GotToken(s, t, got);
    } else if !ok {
      PutMoves(s, t);
    }
  }

  lemma GotToken(s: State, t: Thread, got: Pc)
    requires t in s.calls
    ensures var s' := At(s.(ops := Some(t)), t, got); Moves(s, s', t) && s'.calls[t].pc == got
  {
  }

  lemma EnterForward(s: State, t: Thread, ok: bool)
    requires t in s.calls
    ensures Forward(s, EnterCall(s, t, ok), t)
  {
    hide Acquire, TryStartSync, JoinSyncStop, BeginShutdown;
    SyncMoves(s, t);
    TokenMoves(s, t, ok, StartLook, Done);
  }

  lemma PutMoves(s: State, t: Thread)
    requires t in s.calls
    ensures forall pc :: Moves(s, At(s, t, pc), t) && At(s, t, pc).calls[t].pc == pc
    ensures forall pc :: Forward(s, GiveUp(s, t, pc), t)
    ensures forall pc :: GiveUp(s, t, pc).calls[t] == s.calls[t].(pc := pc, gaveUp := true)
    ensures var s' := At(s.(ops := None), t, Done); Moves(s, s', t) && s'.calls[t].pc == Done
  {
  }

  lemma StayMoves(s: State, t: Thread)
    requires t in s.calls
    ensures Moves(s, s, t)
  {
    assert s.calls[t := s.calls[t]] == s.calls;
  }

  lemma CallForward(s: State, t: Thread, ok: bool, queue: bool)
    requires t in s.calls
    ensures Forward(s, ActCall(s, t, ok, queue), t)
  {
    hide EnterCall, Acquire, LookBeforeStart, LaunchCert, TakeWorker, RegisterStop, JoinSyncStop, At, GiveUp;
    PutMoves(s, t);
    StayMoves(s, t);
    EnterForward(s, t, ok);
    StartMoves(s, t);
    SyncMoves(s, t);
    match s.calls[t].pc
    case StopAcquire => TokenMoves(s, t, ok, StopLook, StopMissed);
    case StopLook => StopMoves(s, t, queue, None);
    case StopRegister(q, worker) => StopMoves(s, t, q, worker);
    case _ =>
  }

  lemma CallLog(s: State, t: Thread, ok: bool, queue: bool)
    requires t in s.calls
    ensures var s' := ActCall(s, t, ok, queue);
            s.log <= s'.log && s.nextGen <= s'.nextGen && s'.closed == s.closed && (s.stopped ==> s'.stopped)
    ensures forall u :: u in s.calls && u != t ==> u in ActCall(s, t, ok, queue).calls
    ensures forall u :: u in s.calls && u != t ==> ActCall(s, t, ok, queue).calls[u] == s.calls[u]
  {
    hide ActCall;
    CallForward(s, t, ok, queue);
  }

  lemma StopperLog(s: State, id: StopId)
    requires id in s.stoppers
    ensures var s' := ActStopper(s, id);
            && s.log <= s'.log && s'.nextGen == s.nextGen && s'.calls == s.calls && s'.stopped == s.stopped
            && s'.closed == (if s.stoppers[id].phase.Returned? then s.closed + {id} else s.closed)
            && (s.stoppers[id].phase.Returned? ==> s'.log == s.log)
  {
  }

  lemma StepLog(s: State, ev: Event)
    ensures var s' := Step(s, ev); s.log <= s'.log && s.nextGen <= s'.nextGen && (s.stopped ==> s'.stopped)
  {
    hide ActCall, ActStopper;
    match ev
    case Act(t, ok, queue) =>
      if t in s.calls {
        CallLog(s, t, ok, queue);
      }
    case Goroutine(id) =>
      if id in s.stoppers {
        StopperLog(s, id);
      }
    case _ =>
  }

  // ---- What a stop promises ----

  /** The first n workers were told to stop. */
  ghost predicate StoppedBelow(log: seq<Obs>, n: Gen) {
    forall g: Gen :: g < n ==> WorkerStopped(g) in log
  }

  /** A stop of the sync service ended after the observation at i. */
  ghost predicate EndedAfter(log: seq<Obs>, i: int) {
    i >= 0 && exists j :: i < j < |log| && log[j].SyncStopEnded?
  }

  /** Every start among the first len observations was followed by the end of a stop. */
  ghost predicate Quieted(log: seq<Obs>, len: nat) {
    forall i :: 0 <= i < len && i < |log| && log[i].SyncStarted? ==> EndedAfter(log, i)
  }

  lemma QuietedGrows(log: seq<Obs>, log': seq<Obs>, len: nat)
    requires Quieted(log, len) && len <= |log| && log <= log'
    ensures Quieted(log', len)
  {
    forall i | 0 <= i < len && log'[i].SyncStarted? ensures EndedAfter(log', i) {
      assert log[i] == log'[i] && EndedAfter(log, i);
      var j :| i < j < |log| && log[j].SyncStopEnded?;
      assert log'[j] == log[j];
    }
  }

  lemma {:induction false} NotRunningIsQuieted(log: seq<Obs>)
    requires !SyncRunning(log)
    ensures Quieted(log, |log|)
  {
    if log != [] {
      var n := |log| - 1;
      if log[n].SyncStopEnded? {
        forall i | 0 <= i < |log| && log[i].SyncStarted? ensures EndedAfter(log, i) {
          assert i < n;
        }
      } else {
        NotRunningIsQuieted(log[..n]);
        QuietedGrows(log[..n], log, n);
      }
    }
  }

  /** Where a call of this kind may stand. */
  predicate OnItsWay(c: Call) {
    match c.kind
    case StopACME =>
      || c.pc.Enter? || c.pc.StopAcquire? || c.pc.StopMissed? || c.pc.StopLook? || c.pc.StopRegister? || c.pc.StopAwait?
      || c.pc.ReleaseOps? || c.pc.Done?
    case StopSync => (c.pc.Enter? || c.pc.SyncAwait? || c.pc.Done?) && !c.gaveUp
    case StartSync => c.pc.Enter? || c.pc.SyncWait? || c.pc.Done?
    case StartACME =>
      c.pc.Enter? || c.pc.StartLook? || c.pc.StartWait? || c.pc.StartLaunch? || c.pc.ReleaseOps? || c.pc.Done?
    case Shutdown => true
  }

  /** The stop that the caller waits for is over. */
  predicate WaitIsOver(s: State, c: Call) {
    (c.pc.StopAwait? || c.pc.SyncAwait?) && c.pc.p in s.closed
  }

  /** The observation was made after the first len ones. */
  predicate Since(log: seq<Obs>, len: nat, o: Obs) {
    len <= |log| && o in log[len..]
  }

  lemma SinceGrows(log: seq<Obs>, log': seq<Obs>, len: nat, o: Obs)
    requires log <= log'
    ensures Since(log, len, o) ==> Since(log', len, o)
  {
    if Since(log, len, o) {
      var i :| 0 <= i < |log[len..]| && log[len..][i] == o;
      assert log'[len..][i] == o;
    }
  }

  /** What the call may claim at each point about the first n workers and the first len observations. */
  ghost predicate Claims(s: State, c: Call, n: Gen, len: nat) {
    && OnItsWay(c)
    && (c.kind == StopACME && (WaitIsOver(s, c) || ((c.pc.ReleaseOps? || c.pc.Done?) && !c.gaveUp)) ==>
          StoppedBelow(s.log, n))
    && (c.kind == StopSync && (WaitIsOver(s, c) || c.pc.Done?) ==> Quieted(s.log, len))
    && (c.kind == StartSync && c.pc.Done? ==> s.stopped || Since(s.log, len, SyncStarted))
  }

  ghost predicate Told(s: State, t: Thread, n: Gen, len: nat) {
    n <= s.nextGen && len <= |s.log| && (t in s.calls ==> Claims(s, s.calls[t], n, len))
  }

  /** When no stop is under way and nobody carries a worker, all were told to stop. */
  lemma NoneLeft(s: State)
    requires GenOk(s) && s.cert.None? && Taken(s).None? && Handed(s).None?
    ensures StoppedBelow(s.log, s.nextGen)
  {
  }

  lemma LaterClaims(s: State, s': State, c: Call, n: Gen, len: nat)
    requires Claims(s, c, n, len) && len <= |s.log| && s.log <= s'.log && (s.stopped ==> s'.stopped)
    requires WaitIsOver(s', c) ==> WaitIsOver(s, c)
    ensures Claims(s', c, n, len)
  {
    if Quieted(s.log, len) {
      QuietedGrows(s.log, s'.log, len);
    }
    SinceGrows(s.log, s'.log, len, SyncStarted);
  }

  /** The steps of a StopACME that take no worker: they need no invariant. */
  lemma StopACMEWaits(s: State, t: Thread, ok: bool, queue: bool, n: Gen, len: nat)
    requires t in s.calls && s.calls[t].kind == StopACME && Told(s, t, n, len)
    requires !s.calls[t].pc.StopMissed? && !s.calls[t].pc.StopLook? && !s.calls[t].pc.StopRegister?
    ensures Told(ActCall(s, t, ok, queue), t, n, len)
  {
    hide Acquire, LookBeforeStart, LaunchCert, TakeWorker, RegisterStop, JoinSyncStop, StoppedBelow, At, GiveUp;
    PutMoves(s, t);
    StayMoves(s, t);
    TokenMoves(s, t, ok, StopLook, StopMissed);
    if StoppedBelow(s.log, n) {
      StoppedGrows(s.log, ActCall(s, t, ok, queue).log, n);
    }
  }

  lemma StoppedGrows(log: seq<Obs>, log': seq<Obs>, n: Gen)
    requires StoppedBelow(log, n) && log <= log'
    ensures StoppedBelow(log', n)
  {
    forall g: Gen | g < n ensures WorkerStopped(g) in log' {
      assert WorkerStopped(g) in log;
    }
  }

  lemma StopACMELooks(s: State, t: Thread, ok: bool, queue: bool, n: Gen, len: nat)
    requires StopsOk(s) && t in s.calls && s.calls[t].kind == StopACME && Told(s, t, n, len)
    requires s.calls[t].pc.StopMissed? || s.calls[t].pc.StopLook?
    ensures Told(ActCall(s, t, ok, queue), t, n, len)
  {
    hide EnterCall, Acquire, LookBeforeStart, LaunchCert, TakeWorker, RegisterStop, JoinSyncStop, StoppedBelow;
    StopMoves(s, t, queue, None);
  }

  lemma StopACMERegisters(s: State, t: Thread, ok: bool, queue: bool, n: Gen, len: nat)
    requires Inv(s) && t in s.calls && s.calls[t].kind == StopACME && Told(s, t, n, len) && s.calls[t].pc.StopRegister?
    ensures Told(ActCall(s, t, ok, queue), t, n, len)
  {
    hide LogOk, EnterCall, Acquire, LookBeforeStart, LaunchCert, TakeWorker, RegisterStop, JoinSyncStop, StoppedBelow;
    var c := s.calls[t];
    assert CallOk(s, t, c);
    StopMoves(s, t, c.pc.queue, c.pc.worker);
    assert s.nextStop !in s.closed;
    if !c.pc.queue && c.pc.worker.None? {
      assert Registering(s) && Taken(s).None?;
      NoneLeft(s);
      FewerStopped(s.log, n, s.nextGen);
      SameLog(s, t, c.pc.queue, c.pc.worker);
    }
  }

  lemma FewerStopped(log: seq<Obs>, n: Gen, m: Gen)
    requires StoppedBelow(log, m) && n <= m
    ensures StoppedBelow(log, n)
  {
  }

  lemma SameLog(s: State, t: Thread, queue: bool, worker: Option<Gen>)
    requires t in s.calls
    ensures RegisterStop(s, t, queue, worker).log == s.log
  {
  }

  lemma OwnStopACME(s: State, t: Thread, ok: bool, queue: bool, n: Gen, len: nat)
    requires Inv(s) && t in s.calls && s.calls[t].kind == StopACME && Told(s, t, n, len)
    ensures Told(ActCall(s, t, ok, queue), t, n, len)
  {
    hide ActCall, Told, GenOk, LogOk, CallsOk, StopsOk;
    var pc := s.calls[t].pc;
    if pc.StopRegister? {
      StopACMERegisters(s, t, ok, queue, n, len);
    } else if pc.StopMissed? || pc.StopLook? {
      StopACMELooks(s, t, ok, queue, n, len);
    } else {
      StopACMEWaits(s, t, ok, queue, n, len);
    }
  }

  lemma OwnStopSync(s: State, t: Thread, ok: bool, queue: bool, n: Gen, len: nat)
    requires StopsOk(s) && t in s.calls && s.calls[t].kind == StopSync && Told(s, t, n, len)
    ensures Told(ActCall(s, t, ok, queue), t, n, len)
  {
    hide Acquire, LookBeforeStart, LaunchCert, TakeWorker, RegisterStop, JoinSyncStop, TryStartSync, At, GiveUp;
    hide Quieted, Since, StoppedBelow;
    PutMoves(s, t);
    StayMoves(s, t);
    SyncMoves(s, t);
    if Quieted(s.log, len) {
      QuietedGrows(s.log, ActCall(s, t, ok, queue).log, len);
    }
  }

  lemma OwnStartSync(s: State, t: Thread, ok: bool, queue: bool, n: Gen, len: nat)
    requires t in s.calls && s.calls[t].kind == StartSync && Told(s, t, n, len)
    ensures Told(ActCall(s, t, ok, queue), t, n, len)
  {
    hide Acquire, LookBeforeStart, LaunchCert, TakeWorker, RegisterStop, JoinSyncStop, TryStartSync, At, GiveUp;
    hide Quieted, Since, StoppedBelow;
    PutMoves(s, t);
    StayMoves(s, t);
    SyncMoves(s, t);
    var s' := ActCall(s, t, ok, queue);
    SinceGrows(s.log, s'.log, len, SyncStarted);
    if s'.log == s.log + [SyncStarted] {
      NewSince(s.log, s'.log, len);
    }
  }

  lemma NewSince(log: seq<Obs>, log': seq<Obs>, len: nat)
    requires log' == log + [SyncStarted] && len <= |log|
    ensures Since(log', len, SyncStarted)
  {
    assert log'[len..][|log| - len] == SyncStarted;
  }

  lemma OwnStartACME(s: State, t: Thread, ok: bool, queue: bool, n: Gen, len: nat)
    requires t in s.calls && s.calls[t].kind == StartACME && Told(s, t, n, len)
    ensures Told(ActCall(s, t, ok, queue), t, n, len)
  {
    hide Acquire, LookBeforeStart, LaunchCert, TakeWorker, RegisterStop, JoinSyncStop, TryStartSync, At, GiveUp;
    hide StoppedBelow, Quieted, Since;
    PutMoves(s, t);
    StayMoves(s, t);
    TokenMoves(s, t, ok, StartLook, Done);
    StartMoves(s, t);
  }

  lemma OwnStep(s: State, t: Thread, ok: bool, queue: bool, n: Gen, len: nat)
    requires Inv(s) && t in s.calls && Told(s, t, n, len)
    ensures Told(ActCall(s, t, ok, queue), t, n, len)
  {
    hide StopsOk, LogOk, GenOk, CallsOk, Told, ActCall;
    match s.calls[t].kind
    case StopACME => OwnStopACME(s, t, ok, queue, n, len);
    case StopSync => OwnStopSync(s, t, ok, queue, n, len);
    case StartSync => OwnStartSync(s, t, ok, queue, n, len);
    case StartACME => OwnStartACME(s, t, ok, queue, n, len);
    case Shutdown => OwnShutdown(s, t, ok, queue, n, len);
  }

  lemma OwnShutdown(s: State, t: Thread, ok: bool, queue: bool, n: Gen, len: nat)
    requires t in s.calls && s.calls[t].kind == Shutdown && Told(s, t, n, len)
    ensures Told(ActCall(s, t, ok, queue), t, n, len)
  {
    hide ActCall;
    CallForward(s, t, ok, queue);
  }

  /** A finishing goroutine makes good on the claims of those who waited for it. */
  lemma FinishTells(s: State, id: StopId, t: Thread, n: Gen, len: nat)
    requires Inv(s) && id in s.stoppers && s.stoppers[id].phase.Returned? && Told(s, t, n, len)
    ensures Told(ActStopper(s, id), t, n, len)
  {
    hide Orderly;
    StopperLog(s, id);
    if t in s.calls {
      var c := s.calls[t];
      assert CallOk(s, t, c);
      if WaitIsOver(ActStopper(s, id), c) && !WaitIsOver(s, c) {
        assert c.pc.p == id;
        if s.stoppers[id].sync {
          NotRunningIsQuieted(s.log);
        } else {
          NoneLeft(s);
        }
      }
    }
  }

  lemma StepTells(s: State, ev: Event, t: Thread, n: Gen, len: nat)
    requires Inv(s) && Told(s, t, n, len)
    ensures Told(Step(s, ev), t, n, len)
  {
    hide ActCall, ActStopper, Inv, Claims;
    StepLog(s, ev);
    match ev
    case Act(u, ok, queue) =>
      if u in s.calls && u == t {
        OwnStep(s, t, ok, queue, n, len);
      } else if u in s.calls {
        CallLog(s, u, ok, queue);
        if t in s.calls {
          LaterClaims(s, Step(s, ev), s.calls[t], n, len);
        } else {
          OthersOnly(s, u, ok, queue, t);
        }
      }
    case Goroutine(id) =>
      if id in s.stoppers {
        StopperLog(s, id);
        if s.stoppers[id].phase.Returned? {
          FinishTells(s, id, t, n, len);
        } else if t in s.calls {
          LaterClaims(s, Step(s, ev), s.calls[t], n, len);
        }
      }
    case Invoke(u, kind) =>
      if u == t && t !in s.calls {
        assert Claims(Step(s, ev), Call(kind, Enter, false, false), n, len) by {
          NewClaims(Step(s, ev), kind, n, len);
        }
      } else if t in s.calls {
        LaterClaims(s, Step(s, ev), s.calls[t], n, len);
      }
    case Forget(u) =>
      if t in s.calls {
        LaterClaims(s, Step(s, ev), s.calls[t], n, len);
      }
  }

  lemma OthersOnly(s: State, u: Thread, ok: bool, queue: bool, t: Thread)
    requires u in s.calls && t !in s.calls
    ensures t !in ActCall(s, u, ok, queue).calls
  {
    hide ActCall;
    CallForward(s, u, ok, queue);
  }

  lemma NewClaims(s: State, kind: Kind, n: Gen, len: nat)
    ensures Claims(s, Call(kind, Enter, false, false), n, len)
  {
  }

  lemma RunStep(before: seq<Event>, after: seq<Event>)
    requires after != []
    ensures var n := |after| - 1;
            Run(INITIAL, before + after) == Step(Run(INITIAL, before + after[..n]), after[n])
  {
    hide Step;
    var all := before + after;
    assert all[..|all| - 1] == before + after[..|after| - 1];
  }

  lemma {:induction false} RunTells(before: seq<Event>, after: seq<Event>, t: Thread)
    requires t !in Run(INITIAL, before).calls
    ensures var m := Run(INITIAL, before); Told(Run(INITIAL, before + after), t, m.nextGen, |m.log|)
  {
    hide Run, Step, Claims;
    var m := Run(INITIAL, before);
    if after == [] {
      assert before + after == before;
    } else {
      var init := after[..|after| - 1];
      RunTells(before, init, t);
      RunInv(before + init);
      StepTells(Run(INITIAL, before + init), after[|after| - 1], t, m.nextGen, |m.log|);
      RunStep(before, after);
    }
  }

  /** Over every run: a StopACME that returned and gave up no wait has stopped every worker launched before it
      was invoked. */
  lemma StopACMEStops(before: seq<Event>, after: seq<Event>, t: Thread, g: Gen)
    requires t !in Run(INITIAL, before).calls && CertLaunched(g) in Run(INITIAL, before).log
    requires var r := Run(INITIAL, before + after);
             t in r.calls && r.calls[t].kind == StopACME && r.calls[t].pc.Done? && !r.calls[t].gaveUp
    ensures WorkerStopped(g) in Run(INITIAL, before + after).log
  {
    hide Run;
    RunTells(before, after, t);
    RunInv(before);
  }

  /** Over every run: a StopSync that returned came after the end of a stop that followed every start before it. */
  lemma StopSyncStops(before: seq<Event>, after: seq<Event>, t: Thread, i: int)
    requires var m := Run(INITIAL, before); t !in m.calls && 0 <= i < |m.log| && m.log[i].SyncStarted?
    requires var r := Run(INITIAL, before + after); t in r.calls && r.calls[t].kind == StopSync && r.calls[t].pc.Done?
    ensures var r := Run(INITIAL, before + after); exists j :: i < j < |r.log| && r.log[j].SyncStopEnded?
  {
    hide Run;
    RunTells(before, after, t);
    LogPrefix(before, after);
    assert EndedAfter(Run(INITIAL, before + after).log, i);
  }

  lemma {:induction false} LogPrefix(before: seq<Event>, after: seq<Event>)
    ensures Run(INITIAL, before).log <= Run(INITIAL, before + after).log
  {
    hide Run, Step;
    if after == [] {
      assert before + after == before;
    } else {
      LogPrefix(before, after[..|after| - 1]);
      RunStep(before, after);
      StepLog(Run(INITIAL, before + after[..|after| - 1]), after[|after| - 1]);
    }
  }

  /** Over every run: a StartSync that returned has started the service, unless stopped was set. */
  lemma StartSyncStarts(before: seq<Event>, after: seq<Event>, t: Thread)
    requires t !in Run(INITIAL, before).calls
    requires var r := Run(INITIAL, before + after); t in r.calls && r.calls[t].kind == StartSync && r.calls[t].pc.Done?
    ensures var m, r := Run(INITIAL, before), Run(INITIAL, before + after);
            r.stopped || (|m.log| <= |r.log| && SyncStarted in r.log[|m.log|..])
  {
    hide Run;
    RunTells(before, after, t);
  }

  // ---- Without timeouts ----

  /** No wait of this caller times out. */
  ghost predicate Patient(evs: seq<Event>, t: Thread) {
    forall k :: 0 <= k < |evs| && evs[k].Act? && evs[k].t == t ==> evs[k].ok
  }

  /** At some moment since, a worker was in the field or stopped was set. */
  ghost predicate CertSeen(before: seq<Event>, after: seq<Event>) {
    exists k :: 0 <= k <= |after| && CertOrStopped(Run(INITIAL, before + after[..k]))
  }

  predicate StartOver(c: Call) {
    c.kind == StartACME && (c.pc.ReleaseOps? || c.pc.Done?)
  }

  /** A patient caller gives up nothing, and a start ends only with a worker there or stopped set. */
  ghost predicate PatientOk(s: State, t: Thread, seen: bool) {
    t in s.calls ==>
      var c := s.calls[t];
      OnItsWay(c) && !c.gaveUp && !c.pc.StopMissed? && (StartOver(c) ==> seen)
  }

  lemma PatientEnter(s: State, t: Thread, queue: bool, seen: bool)
    requires t in s.calls && PatientOk(s, t, seen) && s.calls[t].pc.Enter?
    ensures PatientOk(ActCall(s, t, true, queue), t, seen)
  {
    hide Acquire, JoinSyncStop, TryStartSync, LookBeforeStart, LaunchCert, TakeWorker, RegisterStop;
    TokenMoves(s, t, true, StartLook, Done);
    SyncMoves(s, t);
  }

  predicate Waits(pc: Pc) {
    pc.StartWait? || pc.StopMissed? || pc.StopAwait? || pc.SyncWait? || pc.SyncAwait? || pc.ReleaseOps? || pc.Done?
  }

  lemma PatientWait(s: State, t: Thread, queue: bool, seen: bool)
    requires t in s.calls && PatientOk(s, t, seen) && Waits(s.calls[t].pc)
    ensures PatientOk(ActCall(s, t, true, queue), t, seen)
  {
    hide EnterCall, Acquire, JoinSyncStop, LookBeforeStart, LaunchCert, TakeWorker, RegisterStop;
  }

  /** The steps in which a caller looks or acts on shared state. */
  lemma PatientActs(s: State, t: Thread, queue: bool, seen: bool)
    requires t in s.calls && PatientOk(s, t, seen) && !Waits(s.calls[t].pc) && !s.calls[t].pc.Enter?
    ensures var s' := ActCall(s, t, true, queue);
            PatientOk(s', t, seen || CertOrStopped(s) || CertOrStopped(s'))
  {
    hide EnterCall, Acquire, JoinSyncStop, LookBeforeStart, LaunchCert, TakeWorker, RegisterStop, CertOrStopped, At;
    hide GiveUp;
    match s.calls[t].pc
    case StartLook => StartMoves(s, t);
    case StartLaunch => StartMoves(s, t);
    case StopAcquire => TokenMoves(s, t, true, StopLook, StopMissed);
    case StopLook => StopMoves(s, t, queue, None);
    case StopRegister(q, worker) => StopMoves(s, t, q, worker);
    case SyncStop => SyncMoves(s, t);
    case _ =>
  }

  lemma PatientStep(s: State, t: Thread, queue: bool, seen: bool)
    requires t in s.calls && PatientOk(s, t, seen)
    ensures var s' := ActCall(s, t, true, queue); PatientOk(s', t, seen || CertOrStopped(s) || CertOrStopped(s'))
  {
    hide ActCall, CertOrStopped;
    if Waits(s.calls[t].pc) {
      PatientWait(s, t, queue, seen);
    } else if s.calls[t].pc.Enter? {
      PatientEnter(s, t, queue, seen);
    } else {
      PatientActs(s, t, queue, seen);
    }
  }

  lemma PatientEvent(s: State, ev: Event, t: Thread, seen: bool)
    requires PatientOk(s, t, seen) && (ev.Act? && ev.t == t ==> ev.ok)
    ensures PatientOk(Step(s, ev), t, seen || CertOrStopped(s) || CertOrStopped(Step(s, ev)))
  {
    hide ActCall, ActStopper, CertOrStopped;
    match ev
    case Act(u, ok, queue) =>
      if u in s.calls {
        if u == t {
          PatientStep(s, t, queue, seen);
        } else {
          CallLog(s, u, ok, queue);
          if t !in s.calls {
            OthersOnly(s, u, ok, queue, t);
          }
        }
      }
    case Goroutine(id) =>
      if id in s.stoppers {
        StopperLog(s, id);
      }
    case _ =>
  }

  lemma SeenGrows(before: seq<Event>, after: seq<Event>)
    requires after != []
    requires var init := after[..|after| - 1];
             || CertSeen(before, init) || CertOrStopped(Run(INITIAL, before + init))
             || CertOrStopped(Run(INITIAL, before + after))
    ensures CertSeen(before, after)
  {
    hide Run, CertOrStopped;
    var n := |after| - 1;
    if CertOrStopped(Run(INITIAL, before + after)) {
      assert after[..|after|] == after;
    } else if CertOrStopped(Run(INITIAL, before + after[..n])) {
    } else {
      var k :| 0 <= k <= n && CertOrStopped(Run(INITIAL, before + after[..n][..k]));
      assert after[..n][..k] == after[..k];
    }
  }

  lemma {:induction false} RunPatient(before: seq<Event>, after: seq<Event>, t: Thread)
    requires t !in Run(INITIAL, before).calls && Patient(after, t)
    ensures PatientOk(Run(INITIAL, before + after), t, CertSeen(before, after))
  {
    hide Run, Step, CertOrStopped, CertSeen;
    if after == [] {
      assert before + after == before;
    } else {
      var init := after[..|after| - 1];
      RunPatient(before, init, t);
      PatientEvent(Run(INITIAL, before + init), after[|after| - 1], t, CertSeen(before, init));
      RunStep(before, after);
      if CertSeen(before, init) || CertOrStopped(Run(INITIAL, before + init))
         || CertOrStopped(Run(INITIAL, before + after)) {
        SeenGrows(before, after);
      }
    }
  }

  /** Only a timeout makes a call give up. */
  lemma PatienceGivesUpNothing(before: seq<Event>, after: seq<Event>, t: Thread)
    requires t !in Run(INITIAL, before).calls && Patient(after, t)
    requires t in Run(INITIAL, before + after).calls
    ensures !Run(INITIAL, before + after).calls[t].gaveUp
  {
    hide Run;
    RunPatient(before, after, t);
  }

  lemma OneGivesUp(s: State, t: Thread, ok: bool, queue: bool)
    requires t in s.calls && !s.calls[t].gaveUp
    requires var s' := ActCall(s, t, ok, queue); t in s'.calls && s'.calls[t].gaveUp
    ensures !ok || s.certStop.None?
  {
    hide EnterCall, Acquire, LookBeforeStart, LaunchCert, TakeWorker, RegisterStop, JoinSyncStop;
    PutMoves(s, t);
    StartMoves(s, t);
    SyncMoves(s, t);
    match s.calls[t].pc
    case Enter => EnterMoves(s, t, ok);
    case StopAcquire => TokenMoves(s, t, ok, StopLook, StopMissed);
    case StopLook => StopMoves(s, t, queue, None);
    case StopRegister(q, worker) => StopMoves(s, t, q, worker);
    case _ =>
  }

  lemma EnterMoves(s: State, t: Thread, ok: bool)
    requires t in s.calls
    ensures var s' := EnterCall(s, t, ok); t in s'.calls && s'.calls[t].gaveUp == s.calls[t].gaveUp
  {
    hide Acquire, TryStartSync, JoinSyncStop;
    SyncMoves(s, t);
    TokenMoves(s, t, ok, StartLook, Done);
  }

  lemma StepGivesUp(s: State, ev: Event, t: Thread)
    requires t in s.calls && !s.calls[t].gaveUp && t in Step(s, ev).calls && Step(s, ev).calls[t].gaveUp
    ensures ev.Act? && ev.t == t && (!ev.ok || s.certStop.None?)
  {
    hide ActCall, ActStopper;
    match ev
    case Act(u, ok, queue) =>
      if u in s.calls {
        if u == t {
          OneGivesUp(s, t, ok, queue);
        } else {
          CallForward(s, u, ok, queue);
        }
      }
    case Goroutine(id) =>
      if id in s.stoppers {
        StopperLog(s, id);
      }
    case _ =>
  }

  /** A call that gave up did so in one of its own steps: at a timeout, or, having missed the token, because no
      stop was in flight that it could wait for. */
  lemma {:induction false} GivingUpHasReason(before: seq<Event>, after: seq<Event>, t: Thread) returns (k: nat)
    requires t !in Run(INITIAL, before).calls
    requires var r := Run(INITIAL, before + after); t in r.calls && r.calls[t].gaveUp
    ensures k < |after| && after[k].Act? && after[k].t == t
    ensures !after[k].ok || Run(INITIAL, before + after[..k]).certStop.None?
  {
    hide Run, Step;
    assert before + [] == before;
    k := 0;
    if after != [] {
      k := |after| - 1;
      var init := after[..k];
      var q := Run(INITIAL, before + init);
      RunStep(before, after);
      if t in q.calls && q.calls[t].gaveUp {
        k := GivingUpHasReason(before, init, t);
        assert init[..k] == after[..k];
      } else if t in q.calls {
        StepGivesUp(q, after[k], t);
      } else {
        NewCall(q, after[k], t);
        assert false;
      }
    }
  }

  lemma NewCall(s: State, ev: Event, t: Thread)
    requires t !in s.calls && t in Step(s, ev).calls
    ensures !Step(s, ev).calls[t].gaveUp
  {
    hide ActCall, ActStopper;
    match ev
    case Act(u, ok, queue) =>
      if u in s.calls {
        CallForward(s, u, ok, queue);
      }
    case Goroutine(id) =>
      if id in s.stoppers {
        StopperLog(s, id);
      }
    case _ =>
  }

  /** A StartACME that returned without a timeout found or launched a worker, unless stopped was set. */
  lemma StartACMEStarts(before: seq<Event>, after: seq<Event>, t: Thread) returns (k: nat)
    requires t !in Run(INITIAL, before).calls && Patient(after, t)
    requires var r := Run(INITIAL, before + after); t in r.calls && r.calls[t].kind == StartACME && r.calls[t].pc.Done?
    ensures k <= |after|
    ensures var s := Run(INITIAL, before + after[..k]); s.stopped || s.cert.Some?
  {
    hide Run;
    RunPatient(before, after, t);
    k :| 0 <= k <= |after| && CertOrStopped(Run(INITIAL, before + after[..k]));
  }
}
