/**
 The start/close protocol of `server/createRuntime.ts` as a transition system.

 JavaScript runs one job at a time, so the code between two `await`s is atomic and
 every `await` is a step boundary. A step is an outside call of `start()` or
 `close()`, the settlement of something the runtime awaits, or one promise job.
 Any job that is ready may run: the order is left open, which covers the FIFO order
 of section 9.5 of ECMA-262. Each queued job also carries the ticket it was queued
 under, so that `Fifo` can single out the runs a real engine performs.
 */
module RuntimeProtocol {
  import opened Wrappers

  /** One `runStart()` call together with the `starting` promise derived from it. */
  datatype StartPhase =
    | InStartup                                        // awaiting startupSequence()
    | InListen(fallback: bool)                         // awaiting listen(); fallback: on port 0
    | Returned(ok: bool, ticket: nat)                  // body settled, `finally` callback queued
    | Cleared(ok: bool, hops: nat, ticket: nat)        // callback ran, promise not settled yet
    | StartSettled(ok: bool)

  datatype Stage = FirstDrain | PollerStop | ServerClose | SecondDrain

  /** One shutdown body together with the `closing` promise derived from it. */
  datatype ClosePhase =
    | WaitStart(k: nat)                                // awaiting starting.catch(...)
    | WaitHop(ticket: nat)
    | WaitResume(ticket: nat)
    | Draining(stage: Stage, server: Option<nat>, poller: Option<nat>)
    | Finished(ok: bool, ticket: nat)                  // body settled, `catch` callback queued
    | CloseSettled(ok: bool)

  /** One `start()` call. */
  datatype CallPhase =
    | Fenced(g: nat)                                   // awaiting closing.catch(...)
    | FenceHop(ticket: nat)
    | FenceResume(ticket: nat)
    | Following(k: nat)                                // returned the `starting` promise
    | HasAddress                                       // returned the address

  /** What the synchronous prefix of `runStart` meets. */
  datatype Boot =
    | OriginRefused                                    // throws before the try
    | StorageFails                                     // throws inside the try
    | Boots(hostAllowed: bool)

  datatype Bind = Bound | InUse | BindFails

  datatype Config = Config(skipStartup: bool, portIsExplicit: bool)

  /** The closure variables, the promises and the resources they stand for. */
  datatype State = State(
    config: Config,
    starting: Option<nat>,
    closing: Option<nat>,
    address: Option<nat>,
    handle: Option<nat>,
    stopMergePoller: Option<nat>,
    starts: seq<StartPhase>,
    closes: seq<ClosePhase>,
    calls: seq<CallPhase>,
    clock: nat,
    listeners: set<nat>,
    pollers: set<nat>,
    timer: bool,
    db: bool)

  datatype Event =
    | CallStart(boot: Boot)
    | CallClose
    | StartupSettles(k: nat, ok: bool, hostAllowed: bool)
    | ListenSettles(k: nat, bind: Bind)
    | FinallyRuns(k: nat)
    | SettleHop(k: nat)
    | ShutdownHop(g: nat)
    | ShutdownResumes(g: nat)
    | DrainSettles(g: nat, ok: bool)
    | PollerStopped(g: nat)
    | ServerClosed(g: nat)
    | CatchRuns(g: nat)
    | FenceHops(c: nat)
    | FenceResumes(c: nat, boot: Boot)

  function Initial(config: Config): State {
    State(config, None, None, None, None, None, [], [], [], 0, {}, {}, false, false)
  }

  // ---- runStart ----------------------------------------------------------

  function TearDown(s: State): State {
    s.(timer := false, db := false)
  }

  function SetStart(s: State, k: nat, phase: StartPhase): State
    requires k < |s.starts|
  {
    s.(starts := s.starts[k := phase])
  }

  function ReturnStart(s: State, k: nat, ok: bool): State
    requires k < |s.starts|
  {
    SetStart(s, k, Returned(ok, s.clock)).(clock := s.clock + 1)
  }

  function FailStart(s: State, k: nat): State
    requires k < |s.starts|
  {
    ReturnStart(TearDown(s), k, false)
  }

  function Listen(s: State, k: nat, fallback: bool): State
    requires k < |s.starts|
  {
    SetStart(s, k, InListen(fallback)).(handle := Some(k))
  }

  function AfterStartup(s: State, k: nat, hostAllowed: bool): State
    requires k < |s.starts|
  {
    var s' := s.(timer := true);
    if hostAllowed then Listen(s', k, false) else FailStart(s', k)
  }

  /** `closing = null; starting = runStart().finally(...)`, up to the first await. */
  function Begin(s: State, boot: Boot): State {
    var k := |s.starts|;
    var s' := s.(closing := None, starting := Some(k), starts := s.starts + [InStartup]);
    match boot
    case OriginRefused => ReturnStart(s', k, false)
    case StorageFails => FailStart(s', k)
    case Boots(hostAllowed) =>
      if s.config.skipStartup then AfterStartup(s', k, hostAllowed) else s'.(db := true)
  }

  function ListenDone(s: State, k: nat, bind: Bind): State
    requires k < |s.starts| && s.starts[k].InListen?
  {
    match bind
    case Bound =>
      var s' := s.(address := Some(k), listeners := s.listeners + {k});
      var s'' := if s.config.skipStartup then s'
                 else s'.(stopMergePoller := Some(k), pollers := s'.pollers + {k});
      ReturnStart(s'', k, true)
    case InUse =>
      if s.starts[k].fallback || s.config.portIsExplicit then FailStart(s.(handle := None), k)
      else Listen(s, k, true)
    case BindFails => FailStart(s.(handle := None), k)
  }

  // ---- start -------------------------------------------------------------

  /** The tail of `start()`, from the checks after the fence on. */
  function Conclude(s: State, c: nat, boot: Boot): State
    requires c < |s.calls|
  {
    if s.starting.Some? then s.(calls := s.calls[c := Following(s.starting.value)])
    else if s.address.Some? then s.(calls := s.calls[c := HasAddress])
    else Begin(s, boot).(calls := s.calls[c := Following(|s.starts|)])
  }

  // ---- close -------------------------------------------------------------

  /** The synchronous part of a shutdown, up to its first drain. */
  function BeginShutdown(s: State, g: nat): State
    requires g < |s.closes|
  {
    s.(stopMergePoller := None,
       closes := s.closes[g := Draining(FirstDrain, s.handle, s.stopMergePoller)])
  }

  function SetClose(s: State, g: nat, phase: ClosePhase): State
    requires g < |s.closes|
  {
    s.(closes := s.closes[g := phase])
  }

  function WithoutId(ids: set<nat>, id: Option<nat>): set<nat> {
    if id.Some? then ids - {id.value} else ids
  }

  /** Settling a `starting` promise queues the job of every shutdown waiting on it. */
  function WakeCloses(closes: seq<ClosePhase>, k: nat, clock: nat): (r: seq<ClosePhase>)
    ensures |r| == |closes|
    ensures forall g: nat :: g < |r| ==>
      r[g] == if closes[g] == WaitStart(k) then WaitHop(clock + g) else closes[g]
  {
    if closes == [] then [] else
      var g := |closes| - 1;
      WakeCloses(closes[..g], k, clock)
      + [if closes[g] == WaitStart(k) then WaitHop(clock + g) else closes[g]]
  }

  /** Settling a `closing` promise queues the job of every fenced `start()`, in order. */
  function WakeCalls(calls: seq<CallPhase>, g: nat, clock: nat): (r: seq<CallPhase>)
    ensures |r| == |calls|
    ensures forall c: nat :: c < |r| ==>
      r[c] == if calls[c] == Fenced(g) then FenceHop(clock + c) else calls[c]
  {
    if calls == [] then [] else
      var c := |calls| - 1;
      WakeCalls(calls[..c], g, clock)
      + [if calls[c] == Fenced(g) then FenceHop(clock + c) else calls[c]]
  }

  // ---- the transition system ----------------------------------------------

  predicate Enabled(s: State, e: Event) {
    match e
    case CallStart(_) => true
    case CallClose => true
    case StartupSettles(k, _, _) => k < |s.starts| && s.starts[k].InStartup?
    case ListenSettles(k, _) => k < |s.starts| && s.starts[k].InListen?
    case FinallyRuns(k) => k < |s.starts| && s.starts[k].Returned?
    case SettleHop(k) => k < |s.starts| && s.starts[k].Cleared?
    case ShutdownHop(g) => g < |s.closes| && s.closes[g].WaitHop?
    case ShutdownResumes(g) => g < |s.closes| && s.closes[g].WaitResume?
    case DrainSettles(g, _) =>
      g < |s.closes| && s.closes[g].Draining? && s.closes[g].stage in {FirstDrain, SecondDrain}
    case PollerStopped(g) => g < |s.closes| && s.closes[g].Draining? && s.closes[g].stage == PollerStop
    case ServerClosed(g) => g < |s.closes| && s.closes[g].Draining? && s.closes[g].stage == ServerClose
    case CatchRuns(g) => g < |s.closes| && s.closes[g].Finished?
    case FenceHops(c) => c < |s.calls| && s.calls[c].FenceHop?
    case FenceResumes(c, _) => c < |s.calls| && s.calls[c].FenceResume?
  }

  function Next(s: State, e: Event): State
    requires Enabled(s, e)
  {
    match e
    case CallStart(boot) =>
      var c := |s.calls|;
      if s.closing.None? then Conclude(s.(calls := s.calls + [HasAddress]), c, boot)
      else if s.closing.value < |s.closes| && s.closes[s.closing.value].CloseSettled? then
        s.(calls := s.calls + [FenceHop(s.clock)], clock := s.clock + 1)
      else s.(calls := s.calls + [Fenced(s.closing.value)])
    case CallClose =>
      if s.closing.Some? then s
      else
        var g := |s.closes|;
        var phase := if s.starting.Some? then WaitStart(s.starting.value)
                     else Draining(FirstDrain, s.handle, s.stopMergePoller);
        var s' := s.(closing := Some(g), closes := s.closes + [phase]);
        if s.starting.Some? then s' else BeginShutdown(s', g)
    case StartupSettles(k, ok, hostAllowed) =>
      if ok then AfterStartup(s, k, hostAllowed) else FailStart(s, k)
    case ListenSettles(k, bind) => ListenDone(s, k, bind)
    case FinallyRuns(k) =>
      SetStart(s, k, Cleared(s.starts[k].ok, 1, s.clock)).(starting := None, clock := s.clock + 1)
    case SettleHop(k) =>
      var phase := s.starts[k];
      if phase.hops > 0 then
        SetStart(s, k, Cleared(phase.ok, phase.hops - 1, s.clock)).(clock := s.clock + 1)
      else
        SetStart(s, k, StartSettled(phase.ok))
        .(closes := WakeCloses(s.closes, k, s.clock), clock := s.clock + |s.closes|)
    case ShutdownHop(g) => SetClose(s, g, WaitResume(s.clock)).(clock := s.clock + 1)
    case ShutdownResumes(g) => BeginShutdown(s, g)
    case DrainSettles(g, ok) =>
      if s.closes[g].stage == FirstDrain then SetClose(s, g, s.closes[g].(stage := PollerStop))
      else
        var s' := SetClose(s, g, Finished(ok, s.clock)).(clock := s.clock + 1);
        if ok then TearDown(s'.(handle := None, address := None)) else s'
    case PollerStopped(g) =>
      SetClose(s, g, s.closes[g].(stage := ServerClose))
      .(pollers := WithoutId(s.pollers, s.closes[g].poller))
    case ServerClosed(g) =>
      SetClose(s, g, s.closes[g].(stage := SecondDrain))
      .(listeners := WithoutId(s.listeners, s.closes[g].server))
    case CatchRuns(g) =>
      var ok := s.closes[g].ok;
      SetClose(s, g, CloseSettled(ok))
      .(closing := if ok then s.closing else None,
        calls := WakeCalls(s.calls, g, s.clock), clock := s.clock + |s.calls|)
    case FenceHops(c) => s.(calls := s.calls[c := FenceResume(s.clock)], clock := s.clock + 1)
    case FenceResumes(c, boot) => Conclude(s, c, boot)
  }

  /** A finite run, the last event outermost. */
  datatype Run = Here | Then(before: Run, e: Event)

  /** The events of `r` can be performed one after the other from `s`. */
  predicate IsRun(s: State, r: Run)
    decreases r, 0
  {
    r.Then? ==> IsRun(s, r.before) && Enabled(After(s, r.before), r.e)
  }

  function After(s: State, r: Run): State
    requires IsRun(s, r)
    decreases r, 1
  {
    match r
    case Here => s
    case Then(before, e) => Next(After(s, before), e)
  }

  // ---- what the theorems talk about ---------------------------------------

  /** The body of `runStart` is between its first statement and its return. */
  predicate InFlight(p: StartPhase) {
    p.InStartup? || p.InListen?
  }

  predicate Busy(p: StartPhase) {
    InFlight(p) || p.Returned?
  }

  /** The shutdown body has not returned or thrown. */
  predicate Running(p: ClosePhase) {
    p.WaitStart? || p.WaitHop? || p.WaitResume? || p.Draining?
  }

  /** A `start()` call whose shutdown has settled but which has not resumed yet. */
  predicate Ready(p: CallPhase) {
    p.FenceHop? || p.FenceResume?
  }

  predicate SomeFenced(s: State, g: nat) {
    exists c: nat :: c < |s.calls| && s.calls[c] == Fenced(g)
  }

  /** Start `k` is in flight while shutdown `g` runs without waiting for it. */
  predicate Tramples(s: State, k: nat, g: nat) {
    && k < |s.starts| && g < |s.closes|
    && InFlight(s.starts[k]) && Running(s.closes[g]) && s.closes[g] != WaitStart(k)
  }

  /** Two startups at once, or a startup the running shutdown is not waiting for. */
  ghost predicate Overlap(s: State) {
    || (exists j: nat, k: nat ::
         (j < k < |s.starts| && InFlight(s.starts[j]) && InFlight(s.starts[k])))
    || (exists k: nat, g: nat :: Tramples(s, k, g))
  }

  /** Nothing the runtime started is left behind. */
  predicate Clean(s: State) {
    s.listeners == {} && s.pollers == {} && !s.timer && !s.db && s.handle.None? && s.address.None?
  }

  function StartJob(p: StartPhase): Option<nat> {
    if p.Returned? || p.Cleared? then Some(p.ticket) else None
  }

  function CloseJob(p: ClosePhase): Option<nat> {
    if p.WaitHop? || p.WaitResume? || p.Finished? then Some(p.ticket) else None
  }

  function CallJob(p: CallPhase): Option<nat> {
    if p.FenceHop? || p.FenceResume? then Some(p.ticket) else None
  }

  predicate IsCall(e: Event) {
    e.CallStart? || e.CallClose?
  }

  /** Something the runtime awaits settles from outside. */
  predicate IsSettlement(e: Event) {
    e.StartupSettles? || e.ListenSettles? || e.DrainSettles? || e.PollerStopped? || e.ServerClosed?
  }

  /** A step of one shutdown body. */
  predicate IsShutdownStep(e: Event) {
    e.ShutdownHop? || e.ShutdownResumes? || e.DrainSettles? || e.PollerStopped? || e.ServerClosed?
  }

  /** The ticket of the job an event runs; None for calls and settlements. */
  function Ticket(s: State, e: Event): Option<nat>
    requires Enabled(s, e)
  {
    match e
    case FinallyRuns(k) => StartJob(s.starts[k])
    case SettleHop(k) => StartJob(s.starts[k])
    case ShutdownHop(g) => CloseJob(s.closes[g])
    case ShutdownResumes(g) => CloseJob(s.closes[g])
    case CatchRuns(g) => CloseJob(s.closes[g])
    case FenceHops(c) => CallJob(s.calls[c])
    case FenceResumes(c, _) => CallJob(s.calls[c])
    case _ => None
  }

  /** The job was queued no later than the other one, if there is another one. */
  predicate NoLater(job: Option<nat>, other: Option<nat>) {
    other.None? || (job.Some? && job.value <= other.value)
  }

  /**
   The order a JavaScript engine keeps: the oldest job first, and outside
   settlements only once the job queue is empty. Calls may come from any job.
   */
  predicate Fifo(s: State, e: Event)
    requires Enabled(s, e)
  {
    IsCall(e) ||
    var job := Ticket(s, e);
    && (forall k: nat :: k < |s.starts| ==> NoLater(job, StartJob(s.starts[k])))
    && (forall g: nat :: g < |s.closes| ==> NoLater(job, CloseJob(s.closes[g])))
    && (forall c: nat :: c < |s.calls| ==> NoLater(job, CallJob(s.calls[c])))
  }

  predicate IsFifoRun(s: State, r: Run)
    requires IsRun(s, r)
  {
    r.Then? ==> IsFifoRun(s, r.before) && Fifo(After(s, r.before), r.e)
  }

  // ---- what single steps change ------------------------------------------------

  /** How far a start is from having settled. */
  function StartWork(p: StartPhase): nat {
    match p
    case InStartup => 7
    case InListen(fallback) => if fallback then 5 else 6
    case Returned(_, _) => 4
    case Cleared(_, hops, _) => 2 + hops
    case StartSettled(_) => 0
  }

  /** How far a shutdown is from having settled. */
  function CloseWork(p: ClosePhase): nat {
    match p
    case WaitStart(_) => 8
    case WaitHop(_) => 7
    case WaitResume(_) => 6
    case Draining(stage, _, _) =>
      (match stage case FirstDrain => 5 case PollerStop => 4 case ServerClose => 3 case SecondDrain => 2)
    case Finished(_, _) => 1
    case CloseSettled(_) => 0
  }

  /** The shape of `Begin`: one busy start more. */
  lemma BeginShape(s: State, boot: Boot) returns (p: StartPhase)
    ensures var s' := Begin(s, boot);
      && s'.starts == s.starts + [p] && Busy(p) && s'.starting == Some(|s.starts|)
      && s'.closing.None? && s'.closes == s.closes && s'.calls == s.calls
  {
    p := Begin(s, boot).starts[|s.starts|];
  }

  /** The shape of a step of `runStart`: one start moves on. */
  lemma StartupShape(s: State, k: nat, ok: bool, hostAllowed: bool) returns (p: StartPhase)
    requires Enabled(s, StartupSettles(k, ok, hostAllowed))
    ensures var s' := Next(s, StartupSettles(k, ok, hostAllowed));
      && s' == s.(starts := s.starts[k := p], clock := s'.clock, handle := s'.handle, timer := s'.timer, db := s'.db)
      && Busy(p) && StartWork(p) < StartWork(s.starts[k])
  {
    p := Next(s, StartupSettles(k, ok, hostAllowed)).starts[k];
  }

  lemma ListenShape(s: State, k: nat, bind: Bind) returns (p: StartPhase)
    requires Enabled(s, ListenSettles(k, bind))
    ensures var s' := ListenDone(s, k, bind);
      && s'.starts == s.starts[k := p] && Busy(p) && StartWork(p) < StartWork(s.starts[k])
      && s'.starting == s.starting && s'.closing == s.closing && s'.closes == s.closes && s'.calls == s.calls
  {
    p := ListenDone(s, k, bind).starts[k];
  }

  /** The shape of a step of a shutdown: one shutdown moves on. */
  lemma ShutdownShape(s: State, e: Event) returns (p: ClosePhase)
    requires Enabled(s, e)
    requires IsShutdownStep(e)
    ensures var s' := Next(s, e);
      && s'.closes == s.closes[e.g := p] && s'.starts == s.starts && s'.calls == s.calls
      && s'.starting == s.starting && s'.closing == s.closing
    ensures !p.WaitStart? && !p.CloseSettled? && CloseWork(p) < CloseWork(s.closes[e.g])
  {
    p := Next(s, e).closes[e.g];
  }
}
