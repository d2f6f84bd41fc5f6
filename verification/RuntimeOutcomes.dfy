/**
 What calls of `start()` and `close()` come to: runs on which the fence fails, what a
 finished shutdown or startup leaves behind, when a `close()` fulfils, and why no call
 waits for ever.
 */
module RuntimeOutcomes {
  import opened Wrappers
  import opened RuntimeProtocol
  import opened RuntimeSafety
  import opened RuntimeOrder

  // ---- two runs in engine order that overlap ---------------------------------

  /** Every drain of the run succeeds. */
  predicate DrainsSucceed(r: Run) {
    r.Then? ==> DrainsSucceed(r.before) && (r.e.DrainSettles? ==> r.e.ok)
  }

  /** No `runStart` of the run fails before its first await. */
  predicate BootsSucceed(config: Config, r: Run) {
    r.Then? ==>
      && BootsSucceed(config, r.before)
      && (r.e.CallStart? || r.e.FenceResumes? ==> BootsWell(config, r.e.boot))
  }

  /** What `runStart` checks of its surroundings, the public origin and the host, it accepts every time. */
  predicate AlwaysAllowed(r: Run) {
    r.Then? ==> AlwaysAllowed(r.before) && EventAllowed(r.e)
  }

  predicate EventAllowed(e: Event) {
    && (e.CallStart? || e.FenceResumes? ==> e.boot == StorageFails || e.boot == Boots(true))
    && (e.StartupSettles? ==> e.hostAllowed)
  }

  /** A run in engine order, under constant surroundings, that leads to `s`. */
  predicate LeadsTo(config: Config, r: Run, s: State) {
    && IsRun(Initial(config), r) && IsFifoRun(Initial(config), r) && AlwaysAllowed(r)
    && After(Initial(config), r) == s
  }

  lemma Perform(config: Config, r: Run, s: State, e: Event, t: State) returns (r': Run)
    requires LeadsTo(config, r, s) && Enabled(s, e) && Fifo(s, e) && EventAllowed(e) && Next(s, e) == t
    ensures LeadsTo(config, r', t)
    ensures DrainsSucceed(r') <==> DrainsSucceed(r) && (e.DrainSettles? ==> e.ok)
    ensures BootsSucceed(config, r') <==>
      BootsSucceed(config, r) && (e.CallStart? || e.FenceResumes? ==> BootsWell(config, e.boot))
  {
    r' := Then(r, e);
  }

  /** A state of a runtime that is not listening and has started nothing. */
  function Idle(config: Config, closing: Option<nat>, closes: seq<ClosePhase>, calls: seq<CallPhase>, clock: nat): State {
    Initial(config).(closing := closing, closes := closes, calls := calls, clock := clock)
  }

  function Drain(config: Config, stage: Stage): State {
    Idle(config, Some(0), [Draining(stage, None, None)], [], 0)
  }

  lemma FirstDrainOfIdle(config: Config) returns (r: Run)
    ensures LeadsTo(config, r, Drain(config, PollerStop)) && BootsSucceed(config, r) && DrainsSucceed(r)
  {
    assert LeadsTo(config, Here, Initial(config));
    r := Perform(config, Here, Initial(config), CallClose, Drain(config, FirstDrain));
    r := Perform(config, r, Drain(config, FirstDrain), DrainSettles(0, true), Drain(config, PollerStop));
  }

  lemma ServerOfIdle(config: Config) returns (r: Run)
    ensures LeadsTo(config, r, Drain(config, SecondDrain)) && BootsSucceed(config, r) && DrainsSucceed(r)
  {
    r := FirstDrainOfIdle(config);
    r := Perform(config, r, Drain(config, PollerStop), PollerStopped(0), Drain(config, ServerClose));
    r := Perform(config, r, Drain(config, ServerClose), ServerClosed(0), Drain(config, SecondDrain));
  }

  /** A `close()` of a runtime that was never started. */
  lemma CloseIdle(config: Config, ok: bool) returns (r: Run)
    ensures LeadsTo(config, r, Idle(config, Some(0), [Finished(ok, 0)], [], 1))
    ensures BootsSucceed(config, r) && (ok ==> DrainsSucceed(r))
  {
    r := ServerOfIdle(config);
    r := Perform(config, r, Drain(config, SecondDrain), DrainSettles(0, ok), Idle(config, Some(0), [Finished(ok, 0)], [], 1));
  }

  /** The fence is settled and some `start()` calls are on their way out of it. */
  function AtFence(config: Config, calls: seq<CallPhase>, clock: nat): State {
    Idle(config, Some(0), [CloseSettled(true)], calls, clock)
  }

  lemma FenceSettles(config: Config) returns (r: Run)
    ensures LeadsTo(config, r, AtFence(config, [], 1)) && DrainsSucceed(r)
  {
    r := CloseIdle(config, true);
    r := Perform(config, r, Idle(config, Some(0), [Finished(true, 0)], [], 1), CatchRuns(0), AtFence(config, [], 1));
  }

  /** A `start()` on its way out of the settled fence. */
  lemma OneStartAtFence(config: Config) returns (r: Run)
    ensures LeadsTo(config, r, AtFence(config, [FenceResume(2)], 3)) && DrainsSucceed(r)
  {
    r := FenceSettles(config);
    r := Perform(config, r, AtFence(config, [], 1), CallStart(Boots(true)), AtFence(config, [FenceHop(1)], 2));
    r := Perform(config, r, AtFence(config, [FenceHop(1)], 2), FenceHops(0), AtFence(config, [FenceResume(2)], 3));
  }

  /** A second one, one job behind. */
  lemma TwoStartsAtFence(config: Config) returns (r: Run)
    ensures LeadsTo(config, r, AtFence(config, [FenceResume(2), FenceHop(3)], 4)) && DrainsSucceed(r)
  {
    r := OneStartAtFence(config);
    r := Perform(config, r, AtFence(config, [FenceResume(2)], 3), CallStart(Boots(true)),
                 AtFence(config, [FenceResume(2), FenceHop(3)], 4));
  }

  /** The first cannot make its storage directories; the second is one job behind it. */
  function FirstFailed(config: Config, second: CallPhase, clock: nat): State {
    Initial(config).(starting := Some(0), closes := [CloseSettled(true)], starts := [Returned(false, 4)],
                     calls := [Following(0), second], clock := clock)
  }

  lemma FirstFailsAtOnce(config: Config) returns (r: Run)
    ensures LeadsTo(config, r, FirstFailed(config, FenceHop(3), 5)) && DrainsSucceed(r)
  {
    r := TwoStartsAtFence(config);
    r := Perform(config, r, AtFence(config, [FenceResume(2), FenceHop(3)], 4), FenceResumes(0, StorageFails),
                 FirstFailed(config, FenceHop(3), 5));
  }

  /** Its failure clears `starting` just before the second resumes. */
  function StartingCleared(config: Config, closing: Option<nat>, closes: seq<ClosePhase>): State {
    Initial(config).(closing := closing, closes := closes, starts := [Cleared(false, 1, 6)],
                     calls := [Following(0), FenceResume(5)], clock := 7)
  }

  lemma FailureClearsStarting(config: Config) returns (r: Run)
    ensures LeadsTo(config, r, StartingCleared(config, None, [CloseSettled(true)])) && DrainsSucceed(r)
  {
    r := FirstFailsAtOnce(config);
    r := Perform(config, r, FirstFailed(config, FenceHop(3), 5), FenceHops(1), FirstFailed(config, FenceResume(5), 6));
    r := Perform(config, r, FirstFailed(config, FenceResume(5), 6), FinallyRuns(0),
                 StartingCleared(config, None, [CloseSettled(true)]));
  }

  lemma CloseIsCalled(config: Config) returns (r: Run)
    ensures LeadsTo(config, r, StartingCleared(config, Some(1), [CloseSettled(true), Draining(FirstDrain, None, None)]))
    ensures DrainsSucceed(r)
  {
    r := FailureClearsStarting(config);
    r := Perform(config, r, StartingCleared(config, None, [CloseSettled(true)]), CallClose,
                 StartingCleared(config, Some(1), [CloseSettled(true), Draining(FirstDrain, None, None)]));
  }

  /**
   Drains that succeed are not enough, nor are surroundings that never change their mind: when the
   first startup fails at its storage directories, a `close()` called there is started upon.
   */
  lemma EagerFailureOverlaps(config: Config) returns (r: Run)
    ensures IsRun(Initial(config), r) && IsFifoRun(Initial(config), r)
    ensures DrainsSucceed(r) && AlwaysAllowed(r) && Overlap(After(Initial(config), r))
  {
    r := CloseIsCalled(config);
    var s := StartingCleared(config, Some(1), [CloseSettled(true), Draining(FirstDrain, None, None)]);
    var e := FenceResumes(1, Boots(true));
    assert Tramples(Next(s, e), 1, 1);
    r := Perform(config, r, s, e, Next(s, e));
  }

  /** A drain has failed; a `start()` called while that is reported. */
  function DrainFailed(config: Config, closing: Option<nat>, closes: seq<ClosePhase>, call: CallPhase, clock: nat): State {
    Idle(config, closing, [CloseSettled(false)] + closes, [call], clock)
  }

  lemma StartBehindFailedDrain(config: Config) returns (r: Run)
    ensures LeadsTo(config, r, DrainFailed(config, None, [], FenceHop(1), 2)) && BootsSucceed(config, r)
  {
    r := CloseIdle(config, false);
    var s := Idle(config, Some(0), [Finished(false, 0)], [Fenced(0)], 1);
    r := Perform(config, r, Idle(config, Some(0), [Finished(false, 0)], [], 1), CallStart(Boots(true)), s);
    r := Perform(config, r, s, CatchRuns(0), DrainFailed(config, None, [], FenceHop(1), 2));
  }

  /** A second `close()` called before that `start()` resumes. */
  lemma CloseAgain(config: Config) returns (r: Run)
    ensures LeadsTo(config, r, DrainFailed(config, Some(1), [Draining(FirstDrain, None, None)], FenceHop(1), 2))
    ensures BootsSucceed(config, r)
  {
    r := StartBehindFailedDrain(config);
    r := Perform(config, r, DrainFailed(config, None, [], FenceHop(1), 2), CallClose,
                 DrainFailed(config, Some(1), [Draining(FirstDrain, None, None)], FenceHop(1), 2));
  }

  lemma StartComesFirst(config: Config) returns (r: Run)
    ensures LeadsTo(config, r, DrainFailed(config, Some(1), [Draining(FirstDrain, None, None)], FenceResume(2), 3))
    ensures BootsSucceed(config, r)
  {
    r := CloseAgain(config);
    r := Perform(config, r, DrainFailed(config, Some(1), [Draining(FirstDrain, None, None)], FenceHop(1), 2), FenceHops(0),
                 DrainFailed(config, Some(1), [Draining(FirstDrain, None, None)], FenceResume(2), 3));
  }

  /** Startups that do not fail at once are not enough either. */
  lemma FailedDrainOverlaps(config: Config) returns (r: Run)
    ensures IsRun(Initial(config), r) && IsFifoRun(Initial(config), r)
    ensures BootsSucceed(config, r) && AlwaysAllowed(r) && Overlap(After(Initial(config), r))
  {
    r := StartComesFirst(config);
    var s := DrainFailed(config, Some(1), [Draining(FirstDrain, None, None)], FenceResume(2), 3);
    var e := FenceResumes(0, Boots(true));
    assert Tramples(Next(s, e), 0, 1);
    r := Perform(config, r, s, e, Next(s, e));
  }

  // ---- nothing is left behind --------------------------------------------------

  /** Without an address and without a startup in flight nothing is held. */
  lemma QuietIsClean(s: State)
    requires Inv(s) && s.address.None?
    requires forall k: nat :: k < |s.starts| ==> !InFlight(s.starts[k])
    ensures Clean(s)
  {
  }

  /** A fulfilled `close()` that no newer `start()` has replaced left nothing behind. */
  lemma FulfilledCloseIsClean(config: Config, r: Run)
    requires IsRun(Initial(config), r) && IsGuardedRun(Initial(config), r)
    ensures var s := After(Initial(config), r);
      Fence(s) == Some(CloseSettled(true)) ==> Clean(s) && s.starting.None?
  {
    GuardedRunsNeverOverlap(config, r);
  }

  /** The step on which a shutdown body returns leaves nothing behind. */
  lemma LastDrainCleansUp(s: State, g: nat)
    requires Inv(s) && Enabled(s, DrainSettles(g, true)) && s.closes[g].stage == SecondDrain
    ensures Clean(Next(s, DrainSettles(g, true)))
  {
    assert s.closing == Some(g);
  }

  /** So does a startup that fails before it listens, or at a refused host; any other goes on to listen. */
  lemma FailedStartupCleansUp(s: State, k: nat, ok: bool, hostAllowed: bool)
    requires Inv(s) && Enabled(s, StartupSettles(k, ok, hostAllowed))
    ensures var t := Next(s, StartupSettles(k, ok, hostAllowed));
      if ok && hostAllowed then t.starts[k] == InListen(false) else t.starts[k].Returned? && Clean(t)
  {
    assert s.starting == Some(k);
  }

  /** So does one that fails to bind, on the port asked for or on the fallback. */
  lemma FailedListenCleansUp(s: State, k: nat, bind: Bind)
    requires Inv(s) && Enabled(s, ListenSettles(k, bind)) && bind != Bound
    requires Next(s, ListenSettles(k, bind)).starts[k].Returned?
    ensures Clean(Next(s, ListenSettles(k, bind)))
  {
    assert s.starting == Some(k);
    assert Next(s, ListenSettles(k, bind)) == FailStart(s.(handle := None), k);
  }

  // ---- when a close fulfils ------------------------------------------------------

  /** The outcome of the last drain shutdown `g` made. */
  function LastDrain(r: Run, g: nat): Option<bool> {
    match r
    case Here => None
    case Then(before, e) => if e.DrainSettles? && e.g == g then Some(e.ok) else LastDrain(before, g)
  }

  function Outcome(p: ClosePhase): Option<bool> {
    match p
    case Finished(ok, _) => Some(ok)
    case CloseSettled(ok) => Some(ok)
    case _ => None
  }

  /** What one event does to one shutdown. */
  lemma ClosesMove(s: State, e: Event, g: nat)
    requires Enabled(s, e) && g < |Next(s, e).closes|
    ensures g >= |s.closes| ==> !Next(s, e).closes[g].Finished? && !Next(s, e).closes[g].CloseSettled?
    ensures g < |s.closes| && !(IsShutdownStep(e) && e.g == g) && e != CatchRuns(g) ==>
      Next(s, e).closes[g] == s.closes[g] || (s.closes[g].WaitStart? && Next(s, e).closes[g].WaitHop?)
  {
    match e
    case StartupSettles(k, ok, hostAllowed) => var _ := StartupShape(s, k, ok, hostAllowed);
    case ListenSettles(k, bind) => var _ := ListenShape(s, k, bind);
    case CallStart(boot) => var _ := BeginShape(s.(calls := s.calls + [HasAddress]), boot);
    case FenceResumes(_, boot) => var _ := BeginShape(s, boot);
    case _ =>
      if IsShutdownStep(e) {
        var _ := ShutdownShape(s, e);
      }
  }

  lemma OutcomeStep(s: State, e: Event, g: nat)
    requires Enabled(s, e) && g < |Next(s, e).closes|
    ensures var p := Next(s, e).closes[g];
      Outcome(p).Some? ==>
        if e.DrainSettles? && e.g == g then Outcome(p) == Some(e.ok)
        else g < |s.closes| && Outcome(s.closes[g]) == Outcome(p)
  {
    ClosesMove(s, e, g);
  }

  /** On every run, guarded or not: a close fulfils exactly when its second drain succeeds. */
  lemma {:induction false} CloseFulfilsByLastDrain(config: Config, r: Run, g: nat)
    requires IsRun(Initial(config), r) && g < |After(Initial(config), r).closes|
    ensures var p := After(Initial(config), r).closes[g];
      Outcome(p).Some? ==> LastDrain(r, g) == Outcome(p)
  {
    if r.Then? {
      var s := After(Initial(config), r.before);
      OutcomeStep(s, r.e, g);
      if g < |s.closes| {
        CloseFulfilsByLastDrain(config, r.before, g);
      }
    }
  }

  // ---- a rejected close -----------------------------------------------------------

  /** What the final teardown of a shutdown would give up. */
  predicate SameHoldings(s: State, t: State) {
    s.address == t.address && s.handle == t.handle && s.timer == t.timer && s.db == t.db
  }

  predicate InTeardown(p: ClosePhase) {
    p.Draining? || (p.Finished? && !p.ok)
  }

  lemma StartInTeardown(s: State, g: nat, c: nat, boot: Boot)
    requires Inv(s) && g < |s.closes| && InTeardown(s.closes[g]) && c < |s.calls| && Loose(s, s.calls[c])
    ensures Conclude(s, c, boot) == s.(calls := s.calls[c := HasAddress])
  {
    assert s.closing == Some(g) && s.starting.None?;
  }

  lemma TeardownStep(s: State, g: nat, e: Event)
    requires Inv(s) && Enabled(s, e) && g < |s.closes| && InTeardown(s.closes[g])
    requires InTeardown(Next(s, e).closes[g])
    ensures SameHoldings(s, Next(s, e))
  {
    assert s.closing == Some(g) && s.starting.None?;
    match e
    case FenceResumes(c, boot) => StartInTeardown(s, g, c, boot);
    case _ =>
  }

  function Progress(p: ClosePhase): nat {
    match p
    case WaitStart(_) => 0
    case WaitHop(_) => 1
    case WaitResume(_) => 2
    case Draining(_, _, _) => 3
    case Finished(_, _) => 4
    case CloseSettled(_) => 5
  }

  lemma OwnStepAdvances(s: State, e: Event)
    requires Enabled(s, e) && IsShutdownStep(e)
    ensures Progress(s.closes[e.g]) <= Progress(Next(s, e).closes[e.g])
    ensures s.closes[e.g].Finished? && !InTeardown(s.closes[e.g]) ==> !InTeardown(Next(s, e).closes[e.g])
  {
  }

  lemma ReportAdvances(s: State, g: nat)
    requires Enabled(s, CatchRuns(g))
    ensures Next(s, CatchRuns(g)).closes[g] == CloseSettled(s.closes[g].ok)
  {
  }

  lemma ClosesAreKept(s: State, e: Event)
    requires Enabled(s, e)
    ensures |s.closes| <= |Next(s, e).closes|
  {
    match e
    case StartupSettles(k, ok, hostAllowed) => var _ := StartupShape(s, k, ok, hostAllowed);
    case ListenSettles(k, bind) => var _ := ListenShape(s, k, bind);
    case CallStart(boot) => var _ := BeginShape(s.(calls := s.calls + [HasAddress]), boot);
    case FenceResumes(_, boot) => var _ := BeginShape(s, boot);
    case _ =>
      if IsShutdownStep(e) {
        var _ := ShutdownShape(s, e);
      }
  }

  lemma ShutdownsOnlyAdvance(s: State, e: Event, g: nat)
    requires Enabled(s, e) && g < |s.closes|
    ensures g < |Next(s, e).closes| && Progress(s.closes[g]) <= Progress(Next(s, e).closes[g])
    ensures s.closes[g].Finished? && !InTeardown(s.closes[g]) ==> !InTeardown(Next(s, e).closes[g])
  {
    ClosesAreKept(s, e);
    if IsShutdownStep(e) && e.g == g {
      OwnStepAdvances(s, e);
    } else if e == CatchRuns(g) {
      ReportAdvances(s, g);
    } else {
      ClosesMove(s, e, g);
    }
  }

  /** From its first drain to its rejection a failing shutdown gives up none of these. */
  lemma {:induction false} RejectedCloseKeepsHoldings(s: State, g: nat, r: Run)
    requires Inv(s) && IsRun(s, r) && IsGuardedRun(s, r)
    requires g < |s.closes| && InTeardown(s.closes[g])
    ensures g < |After(s, r).closes| && 3 <= Progress(After(s, r).closes[g])
    ensures InTeardown(After(s, r).closes[g]) ==> SameHoldings(s, After(s, r))
  {
    if r.Then? {
      var t := After(s, r.before);
      RejectedCloseKeepsHoldings(s, g, r.before);
      GuardedRunKeepsInv(s, r.before);
      ShutdownsOnlyAdvance(t, r.e, g);
      if InTeardown(After(s, r).closes[g]) {
        TeardownStep(t, g, r.e);
      }
    }
  }
}
