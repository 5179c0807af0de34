/** The start/stop protocol of the certificate and sync workers as a step system: any number of callers
    and the goroutines they leave behind interleave at every critical section and every channel
    operation, and every bounded wait may time out at any moment. What callers cannot see of each other
    is recorded in a log of the calls that reach the workers. */
module Lifecycle {
  import opened Options

  type Thread = nat
  /** One certificate worker, as made by certFactory. */
  type Gen = nat
  /** One done channel together with the stop goroutine that closes it. */
  type StopId = nat

  datatype Kind = StartACME | StopACME | StartSync | StopSync | Shutdown

  /** Where a caller stands: before the action of that name. */
  datatype Pc =
    | Enter
    | StartLook | StartWait(p: StopId) | StartLaunch
    | StopAcquire | StopMissed | StopLook
    | StopRegister(queue: bool, worker: Option<Gen>) | StopAwait(p: StopId, held: bool)
    | SyncWait(p: StopId) | SyncStop | SyncAwait(p: StopId)
    | ReleaseOps | Done

  /** gaveUp: a wait timed out, so the call no longer claims that the stop is complete.
      first: the Shutdown that set stopped. */
  datatype Call = Call(kind: Kind, pc: Pc, gaveUp: bool, first: bool)

  datatype Phase = Queued | Running | WorkerDone | Returned

  /** A stop goroutine; a sync one has no worker. */
  datatype Stopper = Stopper(sync: bool, worker: Option<Gen>, phase: Phase)

  /** What reaches the workers. */
  datatype Obs =
    | StoppedSet
    | CertLaunched(g: Gen) | CertStopBegan | WorkerStopped(g: Gen) | CertStopEnded
    | SyncStarted | SyncStopBegan | SyncStopEnded

  /** ops is the holder of the acmeOps token, cert is certService with its done channel, certStop and
      syncStop are acmeStopDone and syncStopDone. */
  datatype State = State(
    stopped: bool, ops: Option<Thread>, cert: Option<Gen>, certStop: Option<StopId>, syncStop: Option<StopId>,
    closed: set<StopId>, stoppers: map<StopId, Stopper>, calls: map<Thread, Call>,
    nextGen: Gen, nextStop: StopId, log: seq<Obs>)

  /** ok false is a timeout where there is one; queue says whether there is a CA queue manager. */
  datatype Event =
    | Invoke(t: Thread, kind: Kind)
    | Act(t: Thread, ok: bool, queue: bool)
    | Goroutine(id: StopId)
    | Forget(t: Thread)

  // ---- The callers ----

  function At(s: State, t: Thread, pc: Pc): State
    requires t in s.calls
  {
    s.(calls := s.calls[t := s.calls[t].(pc := pc)])
  }

  function GiveUp(s: State, t: Thread, pc: Pc): State
    requires t in s.calls
  {
    s.(calls := s.calls[t := s.calls[t].(pc := pc, gaveUp := true)])
  }

  /** acquireACMEOps: the token, a timeout, or still waiting. */
  function Acquire(s: State, t: Thread, ok: bool, got: Pc, missed: Pc): State
    requires t in s.calls
  {
    if s.ops.None? && ok then At(s.(ops := Some(t)), t, got)
    else if !ok then At(s, t, missed)
    else s
  }

  /** Under mu in StartACME, before and after the wait for a pending stop. */
  function LookBeforeStart(s: State, t: Thread): State
    requires t in s.calls
  {
    if s.stopped || s.cert.Some? then At(s, t, ReleaseOps)
    else match s.certStop
      case None => At(s, t, StartLaunch)
      case Some(p) => At(s, t, StartWait(p))
  }

  function LaunchCert(s: State, t: Thread): State
    requires t in s.calls
  {
    if s.stopped || s.cert.Some? then At(s, t, ReleaseOps)
    else
      At(s.(cert := Some(s.nextGen), nextGen := s.nextGen + 1, log := s.log + [CertLaunched(s.nextGen)]), t, ReleaseOps)
  }

  /** Under mu in stopACMEWithin: join the stop in flight, or take the worker. */
  function TakeWorker(s: State, t: Thread, queue: bool): State
    requires t in s.calls
  {
    match s.certStop
    case Some(p) => At(s, t, StopAwait(p, true))
    case None => At(s.(cert := None), t, StopRegister(queue, s.cert))
  }

  /** The stop is registered and its goroutine spawned, unless there is nothing to stop. */
  function RegisterStop(s: State, t: Thread, queue: bool, worker: Option<Gen>): State
    requires t in s.calls
  {
    if !queue && worker.None? then At(s, t, ReleaseOps)
    else
      At(s.(certStop := Some(s.nextStop), stoppers := s.stoppers[s.nextStop := Stopper(false, worker, Queued)],
            nextStop := s.nextStop + 1), t, StopAwait(s.nextStop, true))
  }

  /** startSyncStopLocked */
  function JoinSyncStop(s: State, t: Thread): State
    requires t in s.calls
  {
    match s.syncStop
    case Some(p) => At(s, t, SyncAwait(p))
    case None =>
      At(s.(syncStop := Some(s.nextStop), stoppers := s.stoppers[s.nextStop := Stopper(true, None, Queued)],
            nextStop := s.nextStop + 1), t, SyncAwait(s.nextStop))
  }

  function TryStartSync(s: State, t: Thread): State
    requires t in s.calls
  {
    if s.stopped then At(s, t, Done)
    else match s.syncStop
      case None => At(s.(log := s.log + [SyncStarted]), t, Done)
      case Some(p) => At(s, t, SyncWait(p))
  }

  function BeginShutdown(s: State, t: Thread): State
    requires t in s.calls
  {
    if s.stopped then At(s, t, Done)
    else
      s.(stopped := true, log := s.log + [StoppedSet],
         calls := s.calls[t := s.calls[t].(pc := SyncStop, first := true)])
  }

  function EnterCall(s: State, t: Thread, ok: bool): State
    requires t in s.calls
  {
    match s.calls[t].kind
    case StartACME => Acquire(s, t, ok, StartLook, Done)
    case StopACME => At(s, t, StopAcquire)
    case StartSync => TryStartSync(s, t)
    case StopSync => JoinSyncStop(s, t)
    case Shutdown => BeginShutdown(s, t)
  }

  function AfterSync(kind: Kind): Pc {
    if kind == Shutdown then StopAcquire else Done
  }

  function ActCall(s: State, t: Thread, ok: bool, queue: bool): State
    requires t in s.calls
  {
    var c := s.calls[t];
    match c.pc
    case Enter => EnterCall(s, t, ok)
    case StartLook => LookBeforeStart(s, t)
    case StartWait(p) => if p in s.closed then At(s, t, StartLaunch) else if !ok then At(s, t, ReleaseOps) else s
    case StartLaunch => LaunchCert(s, t)
    case StopAcquire => Acquire(s, t, ok, StopLook, StopMissed)
    case StopMissed => if s.certStop.Some? then At(s, t, StopAwait(s.certStop.value, false)) else GiveUp(s, t, Done)
    case StopLook => TakeWorker(s, t, queue)
    case StopRegister(q, worker) => RegisterStop(s, t, q, worker)
    case StopAwait(p, held) =>
      var next := if held then ReleaseOps else Done;
      if p in s.closed then At(s, t, next) else if !ok then GiveUp(s, t, next) else s
    case SyncWait(p) => if p in s.closed then At(s, t, Enter) else s
    case SyncStop => JoinSyncStop(s, t)
    case SyncAwait(p) =>
      if p in s.closed then At(s, t, AfterSync(c.kind))
      else if !ok && c.kind == Shutdown then GiveUp(s, t, AfterSync(c.kind))
      else s
    case ReleaseOps => At(s.(ops := None), t, Done)
    case Done => s
  }

  // ---- The stop goroutines ----

  function Advance(s: State, id: StopId, phase: Phase, obs: seq<Obs>): State
    requires id in s.stoppers
  {
    s.(stoppers := s.stoppers[id := s.stoppers[id].(phase := phase)], log := s.log + obs)
  }

  /** Under mu: clear the field if it is still this stop's, then close the channel. */
  function Finish(s: State, id: StopId): State
    requires id in s.stoppers
  {
    var sync := s.stoppers[id].sync;
    s.(certStop := if !sync && s.certStop == Some(id) then None else s.certStop,
       syncStop := if sync && s.syncStop == Some(id) then None else s.syncStop,
       closed := s.closed + {id}, stoppers := s.stoppers - {id})
  }

  function ActStopper(s: State, id: StopId): State
    requires id in s.stoppers
  {
    var g := s.stoppers[id];
    match g.phase
    case Queued => Advance(s, id, Running, [if g.sync then SyncStopBegan else CertStopBegan])
    case Running => Advance(s, id, WorkerDone, if g.worker.Some? then [WorkerStopped(g.worker.value)] else [])
    case WorkerDone => Advance(s, id, Returned, [if g.sync then SyncStopEnded else CertStopEnded])
    case Returned => Finish(s, id)
  }

  function Step(s: State, ev: Event): State {
    match ev
    case Invoke(t, kind) => if t in s.calls then s else s.(calls := s.calls[t := Call(kind, Enter, false, false)])
    case Act(t, ok, queue) => if t in s.calls then ActCall(s, t, ok, queue) else s
    case Goroutine(id) => if id in s.stoppers then ActStopper(s, id) else s
    case Forget(t) => if t in s.calls && s.calls[t].pc.Done? then s.(calls := s.calls - {t}) else s
  }

  function Run(s: State, evs: seq<Event>): State {
    if evs == [] then s else Step(Run(s, evs[..|evs| - 1]), evs[|evs| - 1])
  }

  const INITIAL := State(false, None, None, None, None, {}, map[], map[], 0, 0, [])

  // ---- What the log must look like ----

  predicate IsStopped(log: seq<Obs>) {
    StoppedSet in log
  }

  predicate CertOpen(log: seq<Obs>) {
    log != [] &&
    var last, before := log[|log| - 1], log[..|log| - 1];
    if last.CertStopBegan? then true else if last.CertStopEnded? then false else CertOpen(before)
  }

  predicate SyncOpen(log: seq<Obs>) {
    log != [] &&
    var last, before := log[|log| - 1], log[..|log| - 1];
    if last.SyncStopBegan? then true else if last.SyncStopEnded? then false else SyncOpen(before)
  }

  /** The last start of the sync service was not followed by a completed stop. */
  predicate SyncRunning(log: seq<Obs>) {
    log != [] &&
    var last, before := log[|log| - 1], log[..|log| - 1];
    if last.SyncStarted? then true else if last.SyncStopEnded? then false else SyncRunning(before)
  }

  /** What may come next: no start during a stop or after stopped, one stop of a kind at a time, every
      worker stopped at most once and only after it was launched. */
  predicate MayFollow(log: seq<Obs>, o: Obs) {
    match o
    case StoppedSet => !IsStopped(log)
    case CertLaunched(g) => !IsStopped(log) && !CertOpen(log) && CertLaunched(g) !in log
    case CertStopBegan => !CertOpen(log)
    case WorkerStopped(g) => CertOpen(log) && CertLaunched(g) in log && WorkerStopped(g) !in log
    case CertStopEnded => CertOpen(log)
    case SyncStarted => !IsStopped(log) && !SyncOpen(log)
    case SyncStopBegan => !SyncOpen(log)
    case SyncStopEnded => SyncOpen(log)
  }

  predicate Orderly(log: seq<Obs>) {
    forall k :: 0 <= k < |log| ==> MayFollow(log[..k], log[k])
  }

  // ---- Invariants ----

  predicate HoldsOps(pc: Pc) {
    pc.StartLook? || pc.StartWait? || pc.StartLaunch? || pc.StopLook? || pc.StopRegister? ||
      (pc.StopAwait? && pc.held) || pc.ReleaseOps?
  }

  /** A stop goroutine lives exactly as long as the field names it. */
  ghost predicate StopsOk(s: State) {
    && (forall id :: id in s.stoppers ==>
          && id < s.nextStop && id !in s.closed
          && (if s.stoppers[id].sync then s.stoppers[id].worker.None? && s.syncStop == Some(id)
              else s.certStop == Some(id)))
    && (s.certStop.Some? ==> s.certStop.value in s.stoppers && !s.stoppers[s.certStop.value].sync)
    && (s.syncStop.Some? ==> s.syncStop.value in s.stoppers && s.stoppers[s.syncStop.value].sync)
    && (forall id :: id in s.closed ==> id < s.nextStop)
  }

  predicate Busy(s: State, stop: Option<StopId>) {
    stop.Some? && stop.value in s.stoppers &&
      (s.stoppers[stop.value].phase.Running? || s.stoppers[stop.value].phase.WorkerDone?)
  }

  ghost predicate LogOk(s: State) {
    && Orderly(s.log) && IsStopped(s.log) == s.stopped
    && CertOpen(s.log) == Busy(s, s.certStop) && SyncOpen(s.log) == Busy(s, s.syncStop)
    && (s.syncStop.Some? && s.syncStop.value in s.stoppers && s.stoppers[s.syncStop.value].phase.Returned? ==>
        !SyncRunning(s.log))
  }

  /** The worker that some caller took and has not handed to a stop goroutine yet. */
  function Taken(s: State): Option<Gen> {
    if s.ops.Some? && s.ops.value in s.calls && s.calls[s.ops.value].pc.StopRegister?
    then s.calls[s.ops.value].pc.worker else None
  }

  predicate Registering(s: State) {
    s.ops.Some? && s.ops.value in s.calls && s.calls[s.ops.value].pc.StopRegister?
  }

  /** The worker of the stop in flight while its Stop has not been called. */
  function Handed(s: State): Option<Gen> {
    if s.certStop.Some? && s.certStop.value in s.stoppers &&
       (s.stoppers[s.certStop.value].phase.Queued? || s.stoppers[s.certStop.value].phase.Running?)
    then s.stoppers[s.certStop.value].worker else None
  }

  ghost predicate Alive(s: State, g: Option<Gen>) {
    g.Some? ==> g.value < s.nextGen && WorkerStopped(g.value) !in s.log
  }

  /** Every launched worker is in one place, or its Stop was called. */
  ghost predicate GenOk(s: State) {
    && (forall g: Gen :: CertLaunched(g) in s.log <==> g < s.nextGen)
    && Alive(s, s.cert) && Alive(s, Taken(s)) && Alive(s, Handed(s))
    && (s.certStop.Some? ==> s.cert.None? && !Registering(s)) && (Registering(s) ==> s.cert.None?)
    && (forall g: Gen :: g < s.nextGen ==>
        WorkerStopped(g) in s.log || s.cert == Some(g) || Taken(s) == Some(g) || Handed(s) == Some(g))
  }

  ghost predicate AllStopped(s: State) {
    forall g: Gen :: CertLaunched(g) in s.log ==> WorkerStopped(g) in s.log
  }

  /** The Shutdown that set stopped: what it may claim at each point. */
  ghost predicate ShutdownOk(s: State, c: Call) {
    && s.stopped && c.kind == Shutdown
    && (c.pc.SyncAwait? && c.pc.p in s.closed ==> !SyncRunning(s.log))
    && (!c.pc.SyncStop? && !c.pc.SyncAwait? && !c.gaveUp ==> !SyncRunning(s.log))
    && (c.pc.StopAwait? ==> s.cert.None? && (c.pc.p in s.closed ==> AllStopped(s)))
    && (c.pc.StopRegister? ==> s.cert.None?)
    && ((c.pc.ReleaseOps? || c.pc.Done?) && !c.gaveUp ==> AllStopped(s))
    && !c.pc.Enter? && !c.pc.StartLook? && !c.pc.StartWait? && !c.pc.StartLaunch? && !c.pc.SyncWait?
  }

  ghost predicate CallOk(s: State, t: Thread, c: Call) {
    && HoldsOps(c.pc) == (s.ops == Some(t))
    && (c.pc.StartLaunch? ==> s.certStop.None?)
    && (c.pc.StartWait? ==> if c.pc.p in s.closed then s.certStop.None? else s.certStop == Some(c.pc.p))
    && (c.pc.StopAwait? ==> c.pc.p in s.closed || s.certStop == Some(c.pc.p))
    && (c.pc.SyncWait? || c.pc.SyncAwait? ==> c.pc.p in s.closed || s.syncStop == Some(c.pc.p))
    && (c.first ==> ShutdownOk(s, c)) && (c.pc.SyncStop? ==> c.first)
  }

  ghost predicate CallsOk(s: State) {
    && (forall t :: t in s.calls ==> CallOk(s, t, s.calls[t]))
    && (s.ops.Some? ==> s.ops.value in s.calls && HoldsOps(s.calls[s.ops.value].pc))
  }

  ghost predicate Inv(s: State) {
    StopsOk(s) && LogOk(s) && GenOk(s) && CallsOk(s)
  }

  lemma Appended(log: seq<Obs>, o: Obs)
    requires Orderly(log) && MayFollow(log, o)
    ensures Orderly(log + [o])
  {
    forall k | 0 <= k < |log + [o]| ensures MayFollow((log + [o])[..k], (log + [o])[k]) {
      assert (log + [o])[..k] == log[..k] || k == |log|;
      assert (log + [o])[..|log|] == log;
    }
  }

  /** What one more observation means. */
  lemma Observed(log: seq<Obs>, o: Obs)
    ensures forall x :: x in log + [o] <==> x in log || x == o
    ensures IsStopped(log + [o]) == (IsStopped(log) || o.StoppedSet?)
    ensures CertOpen(log + [o]) == if o.CertStopBegan? then true else if o.CertStopEnded? then false else CertOpen(log)
    ensures SyncOpen(log + [o]) == if o.SyncStopBegan? then true else if o.SyncStopEnded? then false else SyncOpen(log)
    ensures SyncRunning(log + [o]) ==
            if o.SyncStarted? then true else if o.SyncStopEnded? then false else SyncRunning(log)
  {
    assert (log + [o])[..|log|] == log;
  }

  /** Only thread t's own record changes, and it neither takes nor hands over a worker. */
  lemma Moved(s: State, s': State, t: Thread)
    requires Inv(s) && t in s'.calls && s' == s.(calls := s.calls[t := s'.calls[t]])
    requires CallOk(s, t, s'.calls[t]) && !s'.calls[t].pc.StopRegister?
    requires t in s.calls ==> !s.calls[t].pc.StopRegister?
    ensures Inv(s')
  {
    forall u | u in s'.calls ensures CallOk(s', u, s'.calls[u]) {
      assert u != t ==> CallOk(s, u, s.calls[u]);
    }
    assert Taken(s') == Taken(s) && Registering(s') == Registering(s);
  }

  lemma TokenTaken(s: State, t: Thread, pc: Pc)
    requires Inv(s) && t in s.calls && s.ops.None? && (pc.StartLook? || pc.StopLook?)
    requires pc.StartLook? ==> !s.calls[t].first
    requires s.calls[t].first ==> s.calls[t].pc.StopAcquire?
    ensures Inv(At(s.(ops := Some(t)), t, pc))
  {
    var s' := At(s.(ops := Some(t)), t, pc);
    forall u | u in s'.calls ensures CallOk(s', u, s'.calls[u]) {
      assert CallOk(s, u, s.calls[u]);
    }
  }

  lemma TokenReleased(s: State, t: Thread)
    requires Inv(s) && t in s.calls && s.calls[t].pc.ReleaseOps?
    ensures Inv(At(s.(ops := None), t, Done))
  {
    var s' := At(s.(ops := None), t, Done);
    assert CallOk(s, t, s.calls[t]);
    forall u | u in s'.calls ensures CallOk(s', u, s'.calls[u]) {
      assert CallOk(s, u, s.calls[u]);
    }
  }

  /** Before stopped is set: t's record and the log change, channels and token do not. */
  lemma CallsBeforeStop(s: State, s': State, t: Thread)
    requires CallsOk(s) && !s.stopped && t in s.calls && t in s'.calls && s'.calls == s.calls[t := s'.calls[t]]
    requires s'.ops == s.ops && s'.closed == s.closed && s'.certStop == s.certStop && s'.syncStop == s.syncStop
    requires CallOk(s', t, s'.calls[t])
    ensures CallsOk(s')
  {
    forall u | u in s'.calls ensures CallOk(s', u, s'.calls[u]) {
      assert CallOk(s, u, s.calls[u]);
    }
  }

  lemma SameTaken(s: State, s': State, t: Thread)
    requires t in s.calls && t in s'.calls && s'.ops == s.ops && s'.calls == s.calls[t := s'.calls[t]]
    requires !s.calls[t].pc.StopRegister? && !s'.calls[t].pc.StopRegister?
    ensures Taken(s') == Taken(s) && Registering(s') == Registering(s)
  {
  }

  lemma LaunchedGen(s: State, s': State)
    requires StopsOk(s) && GenOk(s) && s.certStop.None? && s.cert.None? && !Registering(s)
    requires Taken(s') == Taken(s) && Registering(s') == Registering(s)
    requires forall x :: x in s'.log <==> x in s.log || x == CertLaunched(s.nextGen)
    requires s'.cert == Some(s.nextGen) && s'.nextGen == s.nextGen + 1 && s'.certStop == s.certStop &&
             s'.stoppers == s.stoppers
    requires WorkerStopped(s.nextGen) !in s.log
    ensures GenOk(s')
  {
    hide Taken, Registering;
    assert Handed(s') == Handed(s);
  }

  /** Only launched workers are stopped. */
  lemma StoppedWasLaunched(log: seq<Obs>, g: Gen)
    requires Orderly(log) && WorkerStopped(g) in log
    ensures CertLaunched(g) in log
  {
    var k :| 0 <= k < |log| && log[k] == WorkerStopped(g);
    assert MayFollow(log[..k], log[k]);
  }

  lemma LogStays(s: State, s': State, o: Obs)
    requires LogOk(s) && MayFollow(s.log, o) && s'.log == s.log + [o] && s'.stopped == (s.stopped || o.StoppedSet?)
    requires o.CertLaunched? || o.StoppedSet? || (o.SyncStarted? && s.syncStop.None?)
    requires s'.certStop == s.certStop && s'.syncStop == s.syncStop && s'.stoppers == s.stoppers
    ensures LogOk(s') && forall x :: x in s'.log <==> x in s.log || x == o
  {
    hide Orderly, CertOpen, SyncOpen, SyncRunning, IsStopped;
    Appended(s.log, o);
    Observed(s.log, o);
    assert Busy(s', s'.certStop) == Busy(s, s.certStop) && Busy(s', s'.syncStop) == Busy(s, s.syncStop);
  }

  /** A worker may be launched: no stop is in flight and the caller has the token. */
  lemma MayLaunch(s: State, t: Thread)
    requires Inv(s) && t in s.calls && s.calls[t].pc.StartLaunch? && !s.stopped
    ensures s.certStop.None? && !Registering(s) && MayFollow(s.log, CertLaunched(s.nextGen)) &&
            WorkerStopped(s.nextGen) !in s.log
  {
    hide CertOpen, SyncOpen, SyncRunning;
    assert CallOk(s, t, s.calls[t]);
    if WorkerStopped(s.nextGen) in s.log {
      StoppedWasLaunched(s.log, s.nextGen);
    }
  }

  lemma Launched(s: State, t: Thread)
    requires Inv(s) && t in s.calls && s.calls[t].pc.StartLaunch?
    ensures Inv(LaunchCert(s, t))
  {
    var s' := LaunchCert(s, t);
    LaunchCall(s, t);
    if s.stopped || s.cert.Some? {
      hide Inv, CallOk;
      Moved(s, s', t);
    } else {
      hide Inv, CallOk, LaunchCert;
      LaunchedNew(s, t);
    }
  }

  lemma LaunchedNew(s: State, t: Thread)
    requires Inv(s) && t in s.calls && s.calls[t].pc.StartLaunch? && !s.stopped && s.cert.None?
    ensures Inv(LaunchCert(s, t))
  {
    hide GenOk, CallsOk, CallOk, LogOk, MayFollow;
    var s' := LaunchCert(s, t);
    MayLaunch(s, t);
    LaunchCall(s, t);
    SameTaken(s, s', t);
    LogStays(s, s', CertLaunched(s.nextGen));
    LaunchedGen(s, s');
    CallsBeforeStop(s, s', t);
  }

  lemma LaunchCall(s: State, t: Thread)
    requires Inv(s) && t in s.calls && s.calls[t].pc.StartLaunch?
    ensures CallOk(LaunchCert(s, t), t, LaunchCert(s, t).calls[t])
    ensures s.stopped || s.cert.Some? ==> CallOk(s, t, LaunchCert(s, t).calls[t])
  {
    assert CallOk(s, t, s.calls[t]);
  }

  lemma TookCalls(s: State, t: Thread, queue: bool)
    requires CallsOk(s) && t in s.calls && s.calls[t].pc.StopLook? && s.certStop.None?
    ensures CallsOk(TakeWorker(s, t, queue))
  {
    var s' := TakeWorker(s, t, queue);
    assert CallOk(s, t, s.calls[t]);
    forall u | u in s'.calls ensures CallOk(s', u, s'.calls[u]) {
      assert CallOk(s, u, s.calls[u]);
    }
  }

  lemma TookGen(s: State, t: Thread, queue: bool)
    requires GenOk(s) && t in s.calls && s.calls[t].pc.StopLook? && s.certStop.None? && s.ops == Some(t)
    ensures GenOk(TakeWorker(s, t, queue))
  {
    var s' := TakeWorker(s, t, queue);
    assert Taken(s).None? && Taken(s') == s.cert && Handed(s') == Handed(s);
    hide Taken, Handed;
  }

  lemma TookRest(s: State, t: Thread, queue: bool)
    requires StopsOk(s) && LogOk(s) && t in s.calls && s.calls[t].pc.StopLook? && s.certStop.None?
    ensures StopsOk(TakeWorker(s, t, queue)) && LogOk(TakeWorker(s, t, queue))
  {
    hide Orderly, CertOpen, SyncOpen, SyncRunning, IsStopped;
  }

  lemma HoldsToken(s: State, t: Thread)
    requires CallsOk(s) && t in s.calls && HoldsOps(s.calls[t].pc)
    ensures s.ops == Some(t)
  {
    assert CallOk(s, t, s.calls[t]);
  }

  lemma TookNew(s: State, t: Thread, queue: bool)
    requires Inv(s) && t in s.calls && s.calls[t].pc.StopLook? && s.certStop.None?
    ensures Inv(TakeWorker(s, t, queue))
  {
    hide StopsOk, LogOk, GenOk, CallsOk, TakeWorker;
    HoldsToken(s, t);
    TookRest(s, t, queue);
    TookCalls(s, t, queue);
    TookGen(s, t, queue);
  }

  lemma Took(s: State, t: Thread, queue: bool)
    requires Inv(s) && t in s.calls && s.calls[t].pc.StopLook?
    ensures Inv(TakeWorker(s, t, queue))
  {
    hide Inv, CallOk;
    if s.certStop.Some? {
      JoinsStop(s, t);
      Moved(s, TakeWorker(s, t, queue), t);
    } else {
      TookNew(s, t, queue);
    }
  }

  lemma JoinsStop(s: State, t: Thread)
    requires Inv(s) && t in s.calls && s.calls[t].pc.StopLook? && s.certStop.Some?
    ensures CallOk(s, t, s.calls[t].(pc := StopAwait(s.certStop.value, true)))
  {
    hide LogOk;
    assert CallOk(s, t, s.calls[t]);
  }

  lemma RegisteredCalls(s: State, s': State, t: Thread)
    requires CallsOk(s) && t in s.calls && s.calls[t].pc.StopRegister? && s.certStop.None?
    requires s'.calls == s.calls[t := s.calls[t].(pc := StopAwait(s.nextStop, true))]
    requires s' == s.(certStop := Some(s.nextStop), stoppers := s'.stoppers, nextStop := s'.nextStop, calls := s'.calls)
    requires s.nextStop !in s.closed
    ensures CallsOk(s')
  {
    assert CallOk(s, t, s.calls[t]);
    forall u | u in s'.calls ensures CallOk(s', u, s'.calls[u]) {
      assert CallOk(s, u, s.calls[u]);
    }
  }

  lemma RegisteredGen(s: State, s': State, t: Thread)
    requires StopsOk(s) && GenOk(s) && t in s.calls && s.calls[t].pc.StopRegister? && s.ops == Some(t)
    requires s' ==
             s.(certStop := Some(s.nextStop),
                stoppers := s.stoppers[s.nextStop := Stopper(false, s.calls[t].pc.worker, Queued)],
                      nextStop := s.nextStop + 1, calls := s.calls[t := s.calls[t].(pc := StopAwait(s.nextStop, true))])
    ensures GenOk(s')
  {
    assert Taken(s) == s.calls[t].pc.worker && Registering(s);
    assert Taken(s').None? && !Registering(s') && Handed(s).None? && Handed(s') == s.calls[t].pc.worker;
    hide Taken, Registering, Handed, StopsOk;
  }

  /** A new stop goroutine that has not called anything yet. */
  lemma LogQueued(s: State, s': State, g: Stopper)
    requires StopsOk(s) && LogOk(s) && g.phase.Queued? && s'.stoppers == s.stoppers[s.nextStop := g]
    requires s'.log == s.log && s'.stopped == s.stopped
    requires if g.sync then s.syncStop.None? && s'.syncStop == Some(s.nextStop) && s'.certStop == s.certStop
             else s.certStop.None? && s'.certStop == Some(s.nextStop) && s'.syncStop == s.syncStop
    ensures LogOk(s')
  {
    hide Orderly, CertOpen, SyncOpen, SyncRunning, IsStopped;
  }

  lemma StopsQueued(s: State, s': State, g: Stopper)
    requires StopsOk(s) && g.phase.Queued? && (g.sync ==> g.worker.None?) && s'.stoppers == s.stoppers[s.nextStop := g]
    requires s'.nextStop == s.nextStop + 1 && s'.closed == s.closed
    requires if g.sync then s.syncStop.None? && s'.syncStop == Some(s.nextStop) && s'.certStop == s.certStop
             else s.certStop.None? && s'.certStop == Some(s.nextStop) && s'.syncStop == s.syncStop
    ensures StopsOk(s')
  {
  }

  lemma Registered(s: State, t: Thread)
    requires Inv(s) && t in s.calls && s.calls[t].pc.StopRegister?
    ensures Inv(RegisterStop(s, t, s.calls[t].pc.queue, s.calls[t].pc.worker))
  {
    var queue, worker := s.calls[t].pc.queue, s.calls[t].pc.worker;
    var s' := RegisterStop(s, t, queue, worker);
    RegisterFacts(s, t);
    hide LogOk, StopsOk, GenOk, CallsOk;
    if !queue && worker.None? {
      NothingToStop(s, t);
    } else {
      StopsQueued(s, s', Stopper(false, worker, Queued));
      LogQueued(s, s', Stopper(false, worker, Queued));
      RegisteredGen(s, s', t);
      RegisteredCalls(s, s', t);
    }
  }

  lemma RegisterFacts(s: State, t: Thread)
    requires Inv(s) && t in s.calls && s.calls[t].pc.StopRegister?
    ensures s.ops == Some(t) && s.certStop.None? && s.nextStop !in s.closed
  {
    assert CallOk(s, t, s.calls[t]);
    assert Registering(s);
  }

  lemma NothingToStop(s: State, t: Thread)
    requires Inv(s) && t in s.calls && s.calls[t].pc.StopRegister? && s.calls[t].pc.worker.None?
    ensures Inv(At(s, t, ReleaseOps))
  {
    hide Orderly, CertOpen, SyncOpen, SyncRunning, IsStopped;
    var s' := At(s, t, ReleaseOps);
    assert CallOk(s, t, s.calls[t]);
    assert Taken(s).None? && Registering(s) && Taken(s').None? && !Registering(s');
    forall u | u in s'.calls ensures CallOk(s', u, s'.calls[u]) {
      assert CallOk(s, u, s.calls[u]);
    }
  }

  lemma JoinedCalls(s: State, s': State, t: Thread)
    requires CallsOk(s) && t in s.calls && (s.calls[t].pc.Enter? || s.calls[t].pc.SyncStop?) && s.syncStop.None?
    requires s'.calls == s.calls[t := s.calls[t].(pc := SyncAwait(s.nextStop))]
    requires s' == s.(syncStop := Some(s.nextStop), stoppers := s'.stoppers, nextStop := s'.nextStop, calls := s'.calls)
    requires s.nextStop !in s.closed
    ensures CallsOk(s')
  {
    assert CallOk(s, t, s.calls[t]);
    forall u | u in s'.calls ensures CallOk(s', u, s'.calls[u]) {
      assert CallOk(s, u, s.calls[u]);
    }
  }

  lemma JoinedGen(s: State, s': State)
    requires StopsOk(s) && GenOk(s) && Taken(s') == Taken(s) && Registering(s') == Registering(s)
    requires s.nextStop in s'.stoppers
    requires s' == s.(syncStop := s'.syncStop, stoppers := s.stoppers[s.nextStop := s'.stoppers[s.nextStop]],
                      nextStop := s'.nextStop, calls := s'.calls)
    ensures GenOk(s')
  {
    assert Handed(s') == Handed(s);
    hide Taken, Registering, Handed, StopsOk;
  }

  lemma JoinedSync(s: State, t: Thread)
    requires Inv(s) && t in s.calls
    requires s.calls[t].pc.Enter? || s.calls[t].pc.SyncStop?
    ensures Inv(JoinSyncStop(s, t))
  {
    var s' := JoinSyncStop(s, t);
    SyncFacts(s, t);
    hide LogOk, StopsOk, GenOk, CallsOk, CallOk;
    if s.syncStop.Some? {
      Moved(s, s', t);
    } else {
      StopsQueued(s, s', Stopper(true, None, Queued));
      LogQueued(s, s', Stopper(true, None, Queued));
      SameTaken(s, s', t);
      JoinedGen(s, s');
      JoinedCalls(s, s', t);
    }
  }

  lemma SyncFacts(s: State, t: Thread)
    requires Inv(s) && t in s.calls && (s.calls[t].pc.Enter? || s.calls[t].pc.SyncStop?)
    ensures s.nextStop !in s.closed
    ensures s.syncStop.Some? ==> CallOk(s, t, JoinSyncStop(s, t).calls[t])
  {
    hide LogOk, GenOk;
    assert CallOk(s, t, s.calls[t]);
    if s.syncStop.Some? {
      SyncStillOpen(s);
    }
  }

  lemma SyncStillOpen(s: State)
    requires Inv(s) && s.syncStop.Some?
    ensures s.syncStop.value !in s.closed
  {
  }

  lemma SameGen(s: State, s': State, o: Obs)
    requires GenOk(s) && Taken(s') == Taken(s) && Registering(s') == Registering(s)
    requires forall x :: x in s'.log <==> x in s.log || x == o
    requires !o.CertLaunched? && !o.WorkerStopped?
    requires s'.cert == s.cert && s'.nextGen == s.nextGen && s'.certStop == s.certStop && s'.stoppers == s.stoppers
    ensures GenOk(s')
  {
    assert Handed(s') == Handed(s);
    hide Taken, Registering, Handed;
  }

  /** A sync start may happen while no sync stop is in flight; stopped may be set once. */
  lemma MaySync(s: State)
    requires Inv(s) && !s.stopped
    ensures MayFollow(s.log, StoppedSet) && (s.syncStop.None? ==> MayFollow(s.log, SyncStarted))
  {
  }

  lemma EnterCallOk(s: State, t: Thread)
    requires Inv(s) && t in s.calls && s.calls[t].pc.Enter?
    ensures s.calls[t].kind == StartSync ==> CallOk(TryStartSync(s, t), t, TryStartSync(s, t).calls[t])
    ensures s.calls[t].kind == Shutdown ==> CallOk(BeginShutdown(s, t), t, BeginShutdown(s, t).calls[t])
    ensures s.calls[t].kind == StartSync && (s.stopped || s.syncStop.Some?) ==>
            CallOk(s, t, TryStartSync(s, t).calls[t])
    ensures s.calls[t].kind == Shutdown && s.stopped ==> CallOk(s, t, BeginShutdown(s, t).calls[t])
  {
    hide LogOk, GenOk;
    assert CallOk(s, t, s.calls[t]);
  }

  lemma StartedNew(s: State, t: Thread)
    requires Inv(s) && t in s.calls && s.calls[t].pc.Enter? && s.calls[t].kind == StartSync && !s.stopped &&
             s.syncStop.None?
    ensures Inv(TryStartSync(s, t))
  {
    hide GenOk, CallsOk, CallOk, LogOk, MayFollow;
    var s' := TryStartSync(s, t);
    EnterCallOk(s, t);
    MaySync(s);
    SameTaken(s, s', t);
    LogStays(s, s', SyncStarted);
    SameGen(s, s', SyncStarted);
    CallsBeforeStop(s, s', t);
  }

  lemma StartedSync(s: State, t: Thread)
    requires Inv(s) && t in s.calls && s.calls[t].pc.Enter? && s.calls[t].kind == StartSync
    ensures Inv(TryStartSync(s, t))
  {
    hide Inv, CallOk;
    if s.stopped || s.syncStop.Some? {
      EnterCallOk(s, t);
      Moved(s, TryStartSync(s, t), t);
    } else {
      StartedNew(s, t);
    }
  }

  lemma ShutdownNew(s: State, t: Thread)
    requires Inv(s) && t in s.calls && s.calls[t].pc.Enter? && s.calls[t].kind == Shutdown && !s.stopped
    ensures Inv(BeginShutdown(s, t))
  {
    hide GenOk, CallsOk, CallOk, LogOk, MayFollow;
    var s' := BeginShutdown(s, t);
    EnterCallOk(s, t);
    MaySync(s);
    SameTaken(s, s', t);
    LogStays(s, s', StoppedSet);
    SameGen(s, s', StoppedSet);
    CallsBeforeStop(s, s', t);
  }

  lemma ShutdownBegun(s: State, t: Thread)
    requires Inv(s) && t in s.calls && s.calls[t].pc.Enter? && s.calls[t].kind == Shutdown
    ensures Inv(BeginShutdown(s, t))
  {
    hide Inv, CallOk;
    if s.stopped {
      EnterCallOk(s, t);
      Moved(s, BeginShutdown(s, t), t);
    } else {
      ShutdownNew(s, t);
    }
  }

  lemma EnterInv(s: State, t: Thread, ok: bool)
    requires Inv(s) && t in s.calls && s.calls[t].pc.Enter?
    ensures Inv(EnterCall(s, t, ok))
  {
    hide Inv, JoinSyncStop, TryStartSync, BeginShutdown;
    NotFirst(s, t);
    match s.calls[t].kind
    case StartACME =>
      if ok {
        if s.ops.None? {
          TokenTaken(s, t, StartLook);
        }
      } else {
        Moved(s, EnterCall(s, t, ok), t);
      }
    case StopACME => Moved(s, EnterCall(s, t, ok), t);
    case StartSync => StartedSync(s, t);
    case StopSync => JoinedSync(s, t);
    case Shutdown => ShutdownBegun(s, t);
  }

  lemma NotFirst(s: State, t: Thread)
    requires Inv(s) && t in s.calls && s.calls[t].pc.Enter?
    ensures !s.calls[t].first && CallOk(s, t, s.calls[t])
  {
  }

  lemma LookedStart(s: State, t: Thread, ok: bool, queue: bool)
    requires Inv(s) && t in s.calls && (s.calls[t].pc.StartLook? || s.calls[t].pc.StartWait?)
    ensures CallOk(s, t, ActCall(s, t, ok, queue).calls[t])
  {
    hide LogOk, GenOk;
    assert CallOk(s, t, s.calls[t]);
  }

  /** A stop in flight has an open channel and no worker beside it. */
  lemma StopInFlight(s: State)
    requires Inv(s) && s.certStop.Some?
    ensures s.cert.None? && s.certStop.value !in s.closed
  {
  }

  lemma LookedMissed(s: State, t: Thread, ok: bool, queue: bool)
    requires Inv(s) && t in s.calls && s.calls[t].pc.StopMissed?
    ensures CallOk(s, t, ActCall(s, t, ok, queue).calls[t])
  {
    hide LogOk, GenOk, StopsOk;
    assert CallOk(s, t, s.calls[t]);
    if s.certStop.Some? {
      StopInFlight(s);
    }
  }

  lemma LookedStop(s: State, t: Thread, ok: bool, queue: bool)
    requires Inv(s) && t in s.calls && s.calls[t].pc.StopAwait?
    ensures CallOk(s, t, ActCall(s, t, ok, queue).calls[t])
  {
    hide LogOk, GenOk, StopsOk, AllStopped;
    assert CallOk(s, t, s.calls[t]);
  }

  lemma LookedSync(s: State, t: Thread, ok: bool, queue: bool)
    requires Inv(s) && t in s.calls && (s.calls[t].pc.SyncWait? || s.calls[t].pc.SyncAwait?)
    ensures CallOk(s, t, ActCall(s, t, ok, queue).calls[t])
  {
    hide LogOk, GenOk;
    assert CallOk(s, t, s.calls[t]);
  }

  /** The actions that only look at shared state. */
  lemma LookedInv(s: State, t: Thread, ok: bool, queue: bool)
    requires Inv(s) && t in s.calls
    requires var pc := s.calls[t].pc;
             pc.StartLook? || pc.StartWait? || pc.StopMissed? || pc.StopAwait? || pc.SyncWait? || pc.SyncAwait?
    ensures Inv(ActCall(s, t, ok, queue))
  {
    hide Inv, CallOk;
    var pc := s.calls[t].pc;
    if pc.StartLook? || pc.StartWait? {
      LookedStart(s, t, ok, queue);
    } else if pc.StopMissed? {
      LookedMissed(s, t, ok, queue);
    } else if pc.StopAwait? {
      LookedStop(s, t, ok, queue);
    } else {
      LookedSync(s, t, ok, queue);
    }
    Moved(s, ActCall(s, t, ok, queue), t);
  }

  lemma AcquireInv(s: State, t: Thread, ok: bool, queue: bool)
    requires Inv(s) && t in s.calls && s.calls[t].pc.StopAcquire?
    ensures Inv(ActCall(s, t, ok, queue))
  {
    assert CallOk(s, t, s.calls[t]);
    if !ok {
      Moved(s, ActCall(s, t, ok, queue), t);
    } else if s.ops.None? {
      TokenTaken(s, t, StopLook);
    }
  }

  lemma ActInv(s: State, t: Thread, ok: bool, queue: bool)
    requires Inv(s) && t in s.calls
    ensures Inv(ActCall(s, t, ok, queue))
  {
    hide Inv, EnterCall, LookBeforeStart, LaunchCert, TakeWorker, RegisterStop, JoinSyncStop;
    match s.calls[t].pc
    case Enter => EnterInv(s, t, ok);
    case StartLaunch => Launched(s, t);
    case StopAcquire => AcquireInv(s, t, ok, queue);
    case StopLook => Took(s, t, queue);
    case StopRegister(q, worker) => Registered(s, t);
    case SyncStop => JoinedSync(s, t);
    case ReleaseOps => TokenReleased(s, t);
    case Done =>
    case _ => LookedInv(s, t, ok, queue);
  }

  // ---- The stop goroutines keep them ----

  lemma CallsLog(s: State, s': State)
    requires CallsOk(s) && s'.calls == s.calls && s'.ops == s.ops && s'.cert == s.cert && s'.stopped == s.stopped
    requires s'.certStop == s.certStop && s'.syncStop == s.syncStop && s'.closed == s.closed
    requires (SyncRunning(s'.log) ==> SyncRunning(s.log)) && (AllStopped(s) ==> AllStopped(s'))
    ensures CallsOk(s')
  {
    hide SyncRunning, AllStopped;
    forall u | u in s'.calls ensures CallOk(s', u, s'.calls[u]) {
      assert CallOk(s, u, s.calls[u]);
    }
  }

  /** s' is s with the goroutine of this stop in its next phase and at most one more observation. */
  ghost predicate Advanced(s: State, s': State, id: StopId, phase: Phase, obs: seq<Obs>) {
    id in s.stoppers && |obs| <= 1 && s' == Advance(s, id, phase, obs)
  }

  lemma AdvancedStops(s: State, s': State, id: StopId, phase: Phase, obs: seq<Obs>)
    requires StopsOk(s) && Advanced(s, s', id, phase, obs)
    ensures StopsOk(s')
  {
  }

  lemma BeganLog(s: State, s': State, id: StopId)
    requires StopsOk(s) && LogOk(s) && id in s.stoppers && s.stoppers[id].phase.Queued?
    requires Advanced(s, s', id, Running, [if s.stoppers[id].sync then SyncStopBegan else CertStopBegan])
    ensures LogOk(s')
  {
    hide Orderly, CertOpen, SyncOpen, SyncRunning, IsStopped;
    var o := if s.stoppers[id].sync then SyncStopBegan else CertStopBegan;
    Appended(s.log, o);
    Observed(s.log, o);
  }

  lemma WorkerDoneLog(s: State, s': State, id: StopId, obs: seq<Obs>)
    requires StopsOk(s) && LogOk(s) && id in s.stoppers && s.stoppers[id].phase.Running? &&
             Advanced(s, s', id, WorkerDone, obs)
    requires obs == [] || (exists g :: obs == [WorkerStopped(g)] && MayFollow(s.log, obs[0]))
    ensures LogOk(s')
  {
    hide Orderly, CertOpen, SyncOpen, SyncRunning, IsStopped;
    assert s.log + [] == s.log;
    if obs != [] {
      hide MayFollow;
      Appended(s.log, obs[0]);
      Observed(s.log, obs[0]);
    }
  }

  lemma EndedLog(s: State, s': State, id: StopId)
    requires StopsOk(s) && LogOk(s) && id in s.stoppers && s.stoppers[id].phase.WorkerDone?
    requires Advanced(s, s', id, Returned, [if s.stoppers[id].sync then SyncStopEnded else CertStopEnded])
    ensures LogOk(s')
  {
    hide Orderly, CertOpen, SyncOpen, SyncRunning, IsStopped;
    var o := if s.stoppers[id].sync then SyncStopEnded else CertStopEnded;
    Appended(s.log, o);
    Observed(s.log, o);
  }

  lemma AdvancedGen(s: State, s': State, id: StopId, phase: Phase, o: Obs)
    requires StopsOk(s) && GenOk(s) && Advanced(s, s', id, phase, [o]) && !o.CertLaunched? && !o.WorkerStopped?
    requires (phase.Running? && s.stoppers[id].phase.Queued?) || (phase.Returned? && s.stoppers[id].phase.WorkerDone?)
    ensures GenOk(s')
  {
    Observed(s.log, o);
    assert Taken(s') == Taken(s) && Registering(s') == Registering(s) && Handed(s') == Handed(s);
    hide Taken, Registering, Handed;
  }

  lemma WorkerGen(s: State, s': State, id: StopId)
    requires StopsOk(s) && GenOk(s) && id in s.stoppers && s.stoppers[id].phase.Running?
    requires Advanced(s, s', id, WorkerDone,
                      if s.stoppers[id].worker.Some? then [WorkerStopped(s.stoppers[id].worker.value)] else [])
    ensures GenOk(s')
  {
    var w := s.stoppers[id].worker;
    assert Taken(s') == Taken(s) && Registering(s') == Registering(s);
    assert s.log + [] == s.log;
    if w.Some? {
      Observed(s.log, WorkerStopped(w.value));
      assert Handed(s) == w && Handed(s').None? && !Registering(s) && s.cert.None? && Taken(s).None?;
    } else {
      assert Handed(s').None? || Handed(s') == Handed(s);
    }
    hide Taken, Registering, Handed;
  }

  lemma Began(s: State, id: StopId)
    requires Inv(s) && id in s.stoppers && s.stoppers[id].phase.Queued?
    ensures Inv(ActStopper(s, id))
  {
    hide StopsOk, LogOk, GenOk, CallsOk;
    var o := if s.stoppers[id].sync then SyncStopBegan else CertStopBegan;
    var s' := ActStopper(s, id);
    AdvancedStops(s, s', id, Running, [o]);
    BeganLog(s, s', id);
    AdvancedGen(s, s', id, Running, o);
    Observed(s.log, o);
    CallsLog(s, s');
  }

  lemma Ended(s: State, id: StopId)
    requires Inv(s) && id in s.stoppers && s.stoppers[id].phase.WorkerDone?
    ensures Inv(ActStopper(s, id))
  {
    hide StopsOk, LogOk, GenOk, CallsOk;
    var o := if s.stoppers[id].sync then SyncStopEnded else CertStopEnded;
    var s' := ActStopper(s, id);
    AdvancedStops(s, s', id, Returned, [o]);
    EndedLog(s, s', id);
    AdvancedGen(s, s', id, Returned, o);
    Observed(s.log, o);
    CallsLog(s, s');
  }

  lemma MayStopWorker(s: State, id: StopId)
    requires StopsOk(s) && LogOk(s) && GenOk(s) && id in s.stoppers && s.stoppers[id].phase.Running? &&
             s.stoppers[id].worker.Some?
    ensures MayFollow(s.log, WorkerStopped(s.stoppers[id].worker.value))
  {
    hide Orderly, CertOpen, SyncOpen, SyncRunning, IsStopped;
    assert Handed(s) == s.stoppers[id].worker;
  }

  lemma WorkerCalled(s: State, id: StopId)
    requires Inv(s) && id in s.stoppers && s.stoppers[id].phase.Running?
    ensures Inv(ActStopper(s, id))
  {
    hide StopsOk, LogOk, GenOk, CallsOk, MayFollow;
    var w := s.stoppers[id].worker;
    var obs := if w.Some? then [WorkerStopped(w.value)] else [];
    var s' := ActStopper(s, id);
    if w.Some? {
      MayStopWorker(s, id);
      Observed(s.log, WorkerStopped(w.value));
    } else {
      assert s.log + [] == s.log;
    }
    AdvancedStops(s, s', id, WorkerDone, obs);
    WorkerDoneLog(s, s', id, obs);
    WorkerGen(s, s', id);
    CallsLog(s, s');
  }

  lemma FinishedStops(s: State, id: StopId)
    requires StopsOk(s) && id in s.stoppers
    ensures StopsOk(Finish(s, id))
    ensures s.stoppers[id].sync ==> s.syncStop == Some(id) && s.certStop != Some(id)
    ensures !s.stoppers[id].sync ==> s.certStop == Some(id) && s.syncStop != Some(id)
  {
  }

  lemma FinishedLog(s: State, id: StopId)
    requires StopsOk(s) && LogOk(s) && id in s.stoppers && s.stoppers[id].phase.Returned?
    ensures LogOk(Finish(s, id))
  {
    hide Orderly, CertOpen, SyncOpen, SyncRunning, IsStopped;
  }

  lemma FinishedGen(s: State, id: StopId)
    requires StopsOk(s) && GenOk(s) && id in s.stoppers && s.stoppers[id].phase.Returned?
    ensures GenOk(Finish(s, id))
    ensures !s.stoppers[id].sync ==> s.cert.None? && AllStopped(s)
  {
    var s' := Finish(s, id);
    assert Taken(s') == Taken(s) && Registering(s') == Registering(s);
    if !s.stoppers[id].sync {
      assert Handed(s).None? && Handed(s').None? && !Registering(s) && Taken(s).None?;
    } else {
      assert Handed(s') == Handed(s);
    }
    hide Taken, Registering, Handed;
  }

  lemma FinishedCalls(s: State, id: StopId)
    requires StopsOk(s) && CallsOk(s) && id in s.stoppers && s.stoppers[id].phase.Returned?
    requires if s.stoppers[id].sync then s.syncStop == Some(id) && s.certStop != Some(id) && !SyncRunning(s.log)
             else s.certStop == Some(id) && s.syncStop != Some(id) && AllStopped(s)
    ensures CallsOk(Finish(s, id))
  {
    hide SyncRunning, AllStopped;
    var s' := Finish(s, id);
    assert AllStopped(s) ==> AllStopped(s') by {
      AllStoppedSame(s, s');
    }
    forall u | u in s'.calls ensures CallOk(s', u, s'.calls[u]) {
      assert CallOk(s, u, s.calls[u]);
      assert id !in s.closed;
      FinishedCall(s, id, u);
    }
  }

  lemma AllStoppedSame(s: State, s': State)
    requires s'.log == s.log
    ensures AllStopped(s) == AllStopped(s')
  {
  }

  lemma FinishedCall(s: State, id: StopId, u: Thread)
    requires u in s.calls && CallOk(s, u, s.calls[u]) && id in s.stoppers && id !in s.closed
    requires if s.stoppers[id].sync then s.syncStop == Some(id) && s.certStop != Some(id) && !SyncRunning(s.log)
             else s.certStop == Some(id) && s.syncStop != Some(id) && AllStopped(s)
    ensures CallOk(Finish(s, id), u, s.calls[u])
  {
    hide SyncRunning;
    AllStoppedSame(s, Finish(s, id));
    hide AllStopped;
  }

  lemma Finished(s: State, id: StopId)
    requires Inv(s) && id in s.stoppers && s.stoppers[id].phase.Returned?
    ensures Inv(ActStopper(s, id))
  {
    FinishedStops(s, id);
    if s.stoppers[id].sync {
      SyncReturned(s, id);
    }
    hide StopsOk, LogOk, GenOk, CallsOk;
    FinishedLog(s, id);
    FinishedGen(s, id);
    FinishedCalls(s, id);
  }

  lemma SyncReturned(s: State, id: StopId)
    requires Inv(s) && id in s.stoppers && s.stoppers[id].phase.Returned? && s.stoppers[id].sync
    ensures !SyncRunning(s.log)
  {
  }

  lemma StopperInv(s: State, id: StopId)
    requires Inv(s) && id in s.stoppers
    ensures Inv(ActStopper(s, id))
  {
    hide Inv, ActStopper;
    match s.stoppers[id].phase
    case Queued => Began(s, id);
    case Running => WorkerCalled(s, id);
    case WorkerDone => Ended(s, id);
    case Returned => Finished(s, id);
  }

  lemma Invoked(s: State, t: Thread, kind: Kind)
    requires Inv(s) && t !in s.calls
    ensures Inv(s.(calls := s.calls[t := Call(kind, Enter, false, false)]))
  {
    hide LogOk, GenOk;
    var c := Call(kind, Enter, false, false);
    assert CallOk(s, t, c);
    hide CallOk, StopsOk, CallsOk;
    Moved(s, s.(calls := s.calls[t := c]), t);
  }

  lemma ForgottenCalls(s: State, t: Thread)
    requires CallsOk(s) && t in s.calls && s.calls[t].pc.Done?
    ensures CallsOk(s.(calls := s.calls - {t}))
  {
    var s' := s.(calls := s.calls - {t});
    assert CallOk(s, t, s.calls[t]);
    forall u | u in s'.calls ensures CallOk(s', u, s'.calls[u]) {
      assert CallOk(s, u, s.calls[u]);
    }
  }

  lemma ForgottenRest(s: State, t: Thread)
    requires StopsOk(s) && LogOk(s) && GenOk(s) && t in s.calls && s.calls[t].pc.Done?
    ensures var s' := s.(calls := s.calls - {t}); StopsOk(s') && LogOk(s') && GenOk(s')
  {
    hide Orderly, CertOpen, SyncOpen, SyncRunning, IsStopped;
    var s' := s.(calls := s.calls - {t});
    assert Taken(s') == Taken(s) && Registering(s') == Registering(s) && Handed(s') == Handed(s);
    hide Taken, Registering, Handed;
  }

  lemma Forgotten(s: State, t: Thread)
    requires Inv(s) && t in s.calls && s.calls[t].pc.Done?
    ensures Inv(s.(calls := s.calls - {t}))
  {
    hide StopsOk, LogOk, GenOk, CallsOk;
    ForgottenCalls(s, t);
    ForgottenRest(s, t);
  }

  lemma StepInv(s: State, ev: Event)
    requires Inv(s)
    ensures Inv(Step(s, ev))
  {
    hide Inv, ActCall, ActStopper;
    match ev
    case Invoke(t, kind) => if t !in s.calls { Invoked(s, t, kind); }
    case Act(t, ok, queue) => if t in s.calls { ActInv(s, t, ok, queue); }
    case Goroutine(id) => if id in s.stoppers { StopperInv(s, id); }
    case Forget(t) => if t in s.calls && s.calls[t].pc.Done? { Forgotten(s, t); }
  }

  lemma {:induction false} RunInv(evs: seq<Event>)
    ensures Inv(Run(INITIAL, evs))
  {
    hide Step;
    if evs != [] {
      hide Inv;
      RunInv(evs[..|evs| - 1]);
      StepInv(Run(INITIAL, evs[..|evs| - 1]), evs[|evs| - 1]);
    }
  }
}
