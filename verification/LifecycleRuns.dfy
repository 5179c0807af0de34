/** What holds over every run of the start/stop protocol. */
module LifecycleRuns {
  import opened Options
  import opened Lifecycle

  // ---- What holds over every run ----

  /** In every interleaving, with any timeouts, what reaches the workers is orderly: nothing is started during
      a Stop of its kind or after stopped is set, Stops of one kind never overlap, and each certificate
      worker is stopped at most once. StartsOnlyBetweenStops widens this to the whole time from the
      registration of a stop to the end of its goroutine. */
  lemma EveryRunIsOrderly(evs: seq<Event>)
    ensures Orderly(Run(INITIAL, evs).log)
  {
    RunInv(evs);
  }

  // ---- Stops in flight ----

  /** From the registration of its done channel until its goroutine clears the field. */
  predicate StopInFlight(s: State, sync: bool) {
    exists id :: id in s.stoppers && s.stoppers[id].sync == sync
  }

  /** What the step showed to the workers, if anything. */
  function Shown(s: State, s': State): seq<Obs> {
    if |s.log| <= |s'.log| then s'.log[|s.log|..] else []
  }

  lemma ShownIs(s: State, s': State, obs: seq<Obs>)
    requires s'.log == s.log + obs
    ensures Shown(s, s') == obs
  {
  }

  ghost predicate CleanStart(s: State, obs: seq<Obs>) {
    && (forall g: Gen :: CertLaunched(g) in obs ==>
          !s.stopped && s.cert.None? && s.certStop.None? && !Registering(s) && !StopInFlight(s, false))
    && (SyncStarted in obs ==> !s.stopped && s.syncStop.None? && !StopInFlight(s, true))
  }

  lemma NoneInFlight(s: State)
    requires StopsOk(s)
    ensures s.certStop.None? ==> !StopInFlight(s, false)
    ensures s.syncStop.None? ==> !StopInFlight(s, true)
  {
  }

  /** What a caller's step shows. */
  function CallObs(s: State, t: Thread): seq<Obs>
    requires t in s.calls
  {
    var c := s.calls[t];
    if c.pc.StartLaunch? && !s.stopped && s.cert.None? then [CertLaunched(s.nextGen)]
    else if c.pc.Enter? && c.kind == StartSync && !s.stopped && s.syncStop.None? then [SyncStarted]
    else if c.pc.Enter? && c.kind == Shutdown && !s.stopped then [StoppedSet]
    else []
  }

  lemma EnterShows(s: State, t: Thread, ok: bool)
    requires t in s.calls && s.calls[t].pc.Enter?
    ensures EnterCall(s, t, ok).log == s.log + CallObs(s, t)
  {
    assert s.log + [] == s.log;
  }

  lemma CallShows(s: State, t: Thread, ok: bool, queue: bool)
    requires t in s.calls
    ensures ActCall(s, t, ok, queue).log == s.log + CallObs(s, t)
  {
    hide EnterCall;
    assert s.log + [] == s.log;
    if s.calls[t].pc.Enter? {
      EnterShows(s, t, ok);
    }
  }

  /** Nothing but these two critical sections starts anything. */
  lemma CallStart(s: State, t: Thread, ok: bool, queue: bool)
    requires Inv(s) && t in s.calls
    ensures CleanStart(s, Shown(s, ActCall(s, t, ok, queue)))
  {
    hide ActCall, LogOk, GenOk, Shown, StopInFlight;
    NoneInFlight(s);
    assert CallOk(s, t, s.calls[t]);
    CallShows(s, t, ok, queue);
    ShownIs(s, ActCall(s, t, ok, queue), CallObs(s, t));
  }

  lemma StopperStart(s: State, id: StopId)
    requires id in s.stoppers
    ensures CleanStart(s, Shown(s, ActStopper(s, id)))
  {
    var s' := ActStopper(s, id);
    match s.stoppers[id].phase
    case Returned => ShownIs(s, s', []);
    case Running => ShownIs(s, s', if s.stoppers[id].worker.Some? then [WorkerStopped(s.stoppers[id].worker.value)]
                            else []);
    case WorkerDone => ShownIs(s, s', [if s.stoppers[id].sync then SyncStopEnded else CertStopEnded]);
    case Queued => ShownIs(s, s', [if s.stoppers[id].sync then SyncStopBegan else CertStopBegan]);
  }

  /** In every interleaving: a worker is launched, or the sync service started, only by a step from a state
      in which no stop of its kind is registered or about to be, and stopped is not set. */
  lemma StartsOnlyBetweenStops(evs: seq<Event>, ev: Event)
    ensures CleanStart(Run(INITIAL, evs), Shown(Run(INITIAL, evs), Step(Run(INITIAL, evs), ev)))
  {
    hide Run, Inv, CleanStart, ActCall, ActStopper;
    RunInv(evs);
    var s := Run(INITIAL, evs);
    match ev
    case Act(t, ok, queue) =>
      if t in s.calls {
        CallStart(s, t, ok, queue);
      } else {
        NothingShown(s, s);
      }
    case Goroutine(id) =>
      if id in s.stoppers {
        StopperStart(s, id);
      } else {
        NothingShown(s, s);
      }
    case _ => NothingShown(s, Step(s, ev));
  }

  lemma NothingShown(s: State, s': State)
    requires s'.log == s.log
    ensures CleanStart(s, Shown(s, s'))
  {
    ShownIs(s, s', []);
  }

  /** A stop is registered only while none of its kind is in flight, so there is at most one at a time. */
  lemma OneStopInFlight(evs: seq<Event>, a: StopId, b: StopId)
    requires var s := Run(INITIAL, evs); a in s.stoppers && b in s.stoppers && s.stoppers[a].sync == s.stoppers[b].sync
    ensures a == b
  {
    hide Run;
    RunInv(evs);
  }

  // ---- Settling ----

  /** A Shutdown that did not give up a wait has stopped every worker that was ever launched, and the
      sync service was not started since its last stop; by Orderly no start can follow. */
  lemma ShutdownSettles(evs: seq<Event>, t: Thread)
    requires var s := Run(INITIAL, evs); t in s.calls && s.calls[t].first && s.calls[t].pc.Done? && !s.calls[t].gaveUp
    ensures var s := Run(INITIAL, evs); IsStopped(s.log) && AllStopped(s) && !SyncRunning(s.log)
  {
    hide Run;
    RunInv(evs);
    var s := Run(INITIAL, evs);
    assert CallOk(s, t, s.calls[t]);
  }

  /** Each launched worker's Stop was called, or the worker is still to be found: in the field, with a
      caller about to register its stop, or with the one stop goroutine that has not reached it. */
  lemma NoWorkerIsLost(evs: seq<Event>, g: Gen)
    requires CertLaunched(g) in Run(INITIAL, evs).log && WorkerStopped(g) !in Run(INITIAL, evs).log
    ensures var s := Run(INITIAL, evs); s.cert == Some(g) || Taken(s) == Some(g) || Handed(s) == Some(g)
  {
    hide Run;
    RunInv(evs);
  }

  /** The stop fields never name another goroutine than the one that finishes, so the comparisons before
      clearing them always succeed. */
  lemma FinishClearsItsOwn(evs: seq<Event>, id: StopId)
    requires id in Run(INITIAL, evs).stoppers
    ensures var s := Run(INITIAL, evs); if s.stoppers[id].sync then s.syncStop == Some(id) else s.certStop == Some(id)
  {
    hide Run;
    RunInv(evs);
  }
}
