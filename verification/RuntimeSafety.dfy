/**
 Safety of the start/close protocol: when startups and shutdowns exclude each other,
 when they do not, and what is left behind.
 */
module RuntimeSafety {
  import opened Wrappers
  import opened RuntimeProtocol

  // ---- the invariant of guarded runs ---------------------------------------

  /** The shutdown still owns `closing`: it runs, or it failed and has not said so. */
  predicate Active(p: ClosePhase) {
    Running(p) || (p.Finished? && !p.ok)
  }

  predicate Settled(p: ClosePhase) {
    p.CloseSettled?
  }

  /** `starting` names exactly the one start whose callback has not run. */
  ghost predicate StartsOwned(s: State) {
    && (s.starting.Some? ==> s.starting.value < |s.starts|)
    && (forall k: nat :: k < |s.starts| ==> (Busy(s.starts[k]) <==> s.starting == Some(k)))
  }

  /** `closing` names the one shutdown that is not over, or the last one to succeed. */
  ghost predicate ClosesOwned(s: State) {
    && (forall g: nat :: g < |s.closes| && Active(s.closes[g]) ==> s.closing == Some(g))
    && (s.closing.Some? ==>
        var g := s.closing.value;
        && g < |s.closes|
        && (Active(s.closes[g]) || s.closes[g].ok)
        && match s.closes[g]
           case WaitStart(k) =>
             k < |s.starts| && (s.starting == Some(k) || (s.starting.None? && s.starts[k].Cleared?))
           case _ => s.starting.None?)
  }

  ghost predicate CallsLinked(s: State) {
    forall c: nat :: c < |s.calls| && s.calls[c].Fenced? ==>
      s.calls[c].g < |s.closes| && !Settled(s.closes[s.calls[c].g])
  }

  /** A `start()` that resumed now would not be held back by `closing`. */
  predicate FenceDown(s: State) {
    s.closing.None? || (s.closing.value < |s.closes| && Active(s.closes[s.closing.value]))
  }

  /** A `start()` call that will resume without looking at `closing` again. */
  predicate Loose(s: State, call: CallPhase) {
    match call
    case FenceHop(_) => true
    case FenceResume(_) => true
    case Fenced(g) =>
      s.closing != Some(g) && g < |s.closes| && s.closes[g].Finished? && s.closes[g].ok
    case _ => false
  }

  predicate SomeLoose(s: State) {
    exists c: nat :: c < |s.calls| && Loose(s, s.calls[c])
  }

  /** No `start()` on its way out of an old fence can begin on top of a newer shutdown. */
  predicate StaleFenceHarmless(s: State) {
    SomeLoose(s) && FenceDown(s) ==> s.starting.Some? || s.address.Some?
  }

  /** The phase of the start `starting` names. */
  function Current(s: State): Option<StartPhase> {
    if s.starting.Some? && s.starting.value < |s.starts| then Some(s.starts[s.starting.value]) else None
  }

  /** The phase of the shutdown `closing` names. */
  function Fence(s: State): Option<ClosePhase> {
    if s.closing.Some? && s.closing.value < |s.closes| then Some(s.closes[s.closing.value]) else None
  }

  /** Which variable holds which resource. */
  predicate Resources(s: State) {
    && (s.address.Some? ==> s.handle == s.address)
    && (s.address.None? ==> s.listeners == {} && s.pollers == {} && s.stopMergePoller.None?)
    && (s.address.Some? ==> s.listeners <= {s.address.value} && s.pollers <= {s.address.value})
    && (s.stopMergePoller.Some? ==> s.stopMergePoller == s.address)
    && StartResources(s, Current(s)) && CloseResources(s, Fence(s))
  }

  predicate StartResources(s: State, current: Option<StartPhase>) {
    match current
    case Some(InStartup) => s.address.None? && s.handle.None? && !s.timer
    case Some(InListen(_)) => s.address.None? && s.handle == s.starting
    case Some(Returned(true, _)) => s.address == s.starting
    case _ =>
      && (s.address.None? ==> s.handle.None? && !s.timer && !s.db)
      && (current.Some? ==> s.address.None?)
  }

  predicate CloseResources(s: State, fence: Option<ClosePhase>) {
    match fence
    case Some(Draining(stage, server, poller)) =>
      && server == s.handle && s.stopMergePoller.None?
      && (poller.Some? || s.pollers == {}) && (poller.Some? ==> s.pollers <= {poller.value})
      && (stage in {ServerClose, SecondDrain} ==> s.pollers == {})
      && (stage == SecondDrain ==> s.listeners == {})
    case Some(Finished(ok, _)) =>
      s.listeners == {} && s.pollers == {} && s.stopMergePoller.None? && (ok ==> s.address.None?)
    case Some(CloseSettled(ok)) => ok ==> s.address.None?
    case _ => s.pollers == {} || s.stopMergePoller.Some?
  }

  ghost predicate Inv(s: State) {
    && StartsOwned(s) && ClosesOwned(s) && CallsLinked(s)
    && StaleFenceHarmless(s) && Resources(s)
  }

  /**
   Where the source leaves a gap: `starting` cleared after a failed start while some
   `start()` is still on its way out of an older fence, or `closing` cleared after a
   failed drain of a runtime without an address while some `start()` waits on it.
   */
  predicate Guard(s: State, e: Event)
    requires Enabled(s, e)
  {
    match e
    case FinallyRuns(k) => s.starts[k].ok || !SomeLoose(s)
    case CatchRuns(g) => s.closes[g].ok || s.address.Some? || !SomeFenced(s, g)
    case _ => true
  }

  predicate IsGuardedRun(s: State, r: Run)
    requires IsRun(s, r)
  {
    r.Then? ==> IsGuardedRun(s, r.before) && Guard(After(s, r.before), r.e)
  }

  lemma InitialInv(config: Config)
    ensures Inv(Initial(config))
  {
  }

  lemma BeginKeepsInv(s: State, c: nat, boot: Boot)
    requires Inv(s) && c < |s.calls|
    requires s.starting.None? && s.address.None? && (s.closing.None? || !FenceDown(s))
    ensures Inv(Begin(s, boot).(calls := s.calls[c := Following(|s.starts|)]))
  {
    var s' := Begin(s, boot).(calls := s.calls[c := Following(|s.starts|)]);
    assert StartsOwned(s');
    assert ClosesOwned(s');
    assert CallsLinked(s');
    assert Resources(s');
  }

  lemma DecideKeepsInv(s: State, c: nat, boot: Boot)
    requires Inv(s) && c < |s.calls|
    requires s.starting.None? && s.address.None? ==> s.closing.None? || !FenceDown(s)
    ensures Inv(Conclude(s, c, boot))
  {
    if s.starting.None? && s.address.None? {
      BeginKeepsInv(s, c, boot);
    }
  }

  lemma CallStartKeepsInv(s: State, boot: Boot)
    requires Inv(s) && Enabled(s, CallStart(boot)) && Guard(s, CallStart(boot))
    ensures Inv(Next(s, CallStart(boot)))
  {
    if s.closing.None? {
      CallAddedKeepsInv(s, HasAddress);
      DecideKeepsInv(s.(calls := s.calls + [HasAddress]), |s.calls|, boot);
    } else if Fence(s).Some? && Fence(s).value.CloseSettled? {
      CallAddedKeepsInv(s, FenceHop(s.clock));
      assert Next(s, CallStart(boot)) == s.(calls := s.calls + [FenceHop(s.clock)]).(clock := s.clock + 1);
    } else {
      CallAddedKeepsInv(s, Fenced(s.closing.value));
    }
  }

  /** One call more; on its way out of a fence only where that fence is down. */
  lemma CallAddedKeepsInv(s: State, call: CallPhase)
    requires Inv(s)
    requires call.HasAddress? || (call.FenceHop? && !FenceDown(s))
          || (s.closing.Some? && call == Fenced(s.closing.value) && !Settled(s.closes[s.closing.value]))
    ensures Inv(s.(calls := s.calls + [call]))
  {
    var t := s.(calls := s.calls + [call]);
    forall c: nat | c < |t.calls| ensures Loose(t, t.calls[c]) ==> SomeLoose(s) || !FenceDown(t) {
      assert c < |s.calls| ==> (Loose(t, t.calls[c]) ==> Loose(s, s.calls[c]));
    }
  }

  lemma FenceResumesKeepsInv(s: State, c: nat, boot: Boot)
    requires Inv(s) && Enabled(s, FenceResumes(c, boot)) && Guard(s, FenceResumes(c, boot))
    ensures Inv(Next(s, FenceResumes(c, boot)))
  {
    DecideKeepsInv(s, c, boot);
  }

  lemma BoundKeepsOwners(s: State, k: nat)
    requires Inv(s) && Enabled(s, ListenSettles(k, Bound))
    ensures var t := ListenDone(s, k, Bound);
      StartsOwned(t) && ClosesOwned(t) && CallsLinked(t) && StaleFenceHarmless(t)
  {
    assert s.starting == Some(k);
  }

  lemma BoundKeepsResources(s: State, k: nat)
    requires Inv(s) && Enabled(s, ListenSettles(k, Bound))
    ensures Resources(ListenDone(s, k, Bound))
  {
    assert s.starting == Some(k);
  }

  lemma BoundKeepsInv(s: State, k: nat)
    requires Inv(s) && Enabled(s, ListenSettles(k, Bound))
    ensures Inv(ListenDone(s, k, Bound))
  {
    BoundKeepsOwners(s, k);
    BoundKeepsResources(s, k);
  }

  lemma BindFailureKeepsInv(s: State, k: nat)
    requires Inv(s) && Enabled(s, ListenSettles(k, BindFails))
    ensures Inv(FailStart(s.(handle := None), k))
  {
    assert s.starting == Some(k);
  }

  lemma ListenDoneKeepsInv(s: State, k: nat, bind: Bind)
    requires Inv(s) && Enabled(s, ListenSettles(k, bind))
    ensures Inv(ListenDone(s, k, bind))
  {
    match bind
    case Bound => BoundKeepsInv(s, k);
    case BindFails => BindFailureKeepsInv(s, k);
    case InUse =>
      if s.starts[k].fallback || s.config.portIsExplicit {
        BindFailureKeepsInv(s, k);
      }
  }

  lemma WakeClosesKeepsInv(s: State, k: nat)
    requires Inv(s) && Enabled(s, SettleHop(k)) && s.starts[k].hops == 0
    ensures Inv(Next(s, SettleHop(k)))
  {
    var s' := Next(s, SettleHop(k));
    assert s.starting != Some(k);
    assert forall g: nat :: g < |s.closes| ==> Active(s'.closes[g]) == Active(s.closes[g]);
  }

  lemma SettleHopKeepsInv(s: State, k: nat)
    requires Inv(s) && Enabled(s, SettleHop(k))
    ensures Inv(Next(s, SettleHop(k)))
  {
    if s.starts[k].hops == 0 {
      WakeClosesKeepsInv(s, k);
    }
  }

  lemma CatchRunsKeepsInv(s: State, g: nat)
    requires Inv(s) && Enabled(s, CatchRuns(g)) && Guard(s, CatchRuns(g))
    ensures Inv(Next(s, CatchRuns(g)))
  {
    var s' := Next(s, CatchRuns(g));
    if s'.starting.None? && s'.address.None? && !s.closes[g].ok {
      forall c: nat | c < |s'.calls| ensures !Loose(s', s'.calls[c]) {
        assert !Loose(s, s.calls[c]) && s.calls[c] != Fenced(g);
      }
    }
  }

  lemma CloseWaitsKeepsInv(s: State)
    requires Inv(s) && s.closing.None? && s.starting.Some?
    ensures Inv(Next(s, CallClose))
  {
  }

  lemma CloseAtOnceKeepsInv(s: State)
    requires Inv(s) && s.closing.None? && s.starting.None?
    ensures Inv(Next(s, CallClose))
  {
  }

  lemma CallCloseKeepsInv(s: State)
    requires Inv(s) && Enabled(s, CallClose) && Guard(s, CallClose)
    ensures Inv(Next(s, CallClose))
  {
    if s.closing.None? {
      if s.starting.Some? {
        CloseWaitsKeepsInv(s);
      } else {
        CloseAtOnceKeepsInv(s);
      }
    }
  }

  lemma StartupSettlesKeepsInv(s: State, k: nat, ok: bool, hostAllowed: bool)
    requires Inv(s) && Enabled(s, StartupSettles(k, ok, hostAllowed)) && Guard(s, StartupSettles(k, ok, hostAllowed))
    ensures Inv(Next(s, StartupSettles(k, ok, hostAllowed)))
  {
  }

  lemma FinallyRunsKeepsInv(s: State, k: nat)
    requires Inv(s) && Enabled(s, FinallyRuns(k)) && Guard(s, FinallyRuns(k))
    ensures Inv(Next(s, FinallyRuns(k)))
  {
  }

  lemma ShutdownHopKeepsInv(s: State, g: nat)
    requires Inv(s) && Enabled(s, ShutdownHop(g)) && Guard(s, ShutdownHop(g))
    ensures Inv(Next(s, ShutdownHop(g)))
  {
  }

  lemma ShutdownResumesKeepsInv(s: State, g: nat)
    requires Inv(s) && Enabled(s, ShutdownResumes(g)) && Guard(s, ShutdownResumes(g))
    ensures Inv(Next(s, ShutdownResumes(g)))
  {
  }

  lemma DrainSettlesKeepsInv(s: State, g: nat, ok: bool)
    requires Inv(s) && Enabled(s, DrainSettles(g, ok)) && Guard(s, DrainSettles(g, ok))
    ensures Inv(Next(s, DrainSettles(g, ok)))
  {
    if s.closes[g].stage == FirstDrain {
      FirstDrainKeepsInv(s, g, ok);
    } else {
      LastDrainKeepsInv(s, g, ok);
    }
  }

  lemma FirstDrainKeepsInv(s: State, g: nat, ok: bool)
    requires Inv(s) && Enabled(s, DrainSettles(g, ok)) && s.closes[g].stage == FirstDrain
    ensures Inv(Next(s, DrainSettles(g, ok)))
  {
  }

  lemma LastDrainKeepsInv(s: State, g: nat, ok: bool)
    requires Inv(s) && Enabled(s, DrainSettles(g, ok)) && s.closes[g].stage == SecondDrain
    ensures Inv(Next(s, DrainSettles(g, ok)))
  {
  }

  lemma PollerStoppedKeepsInv(s: State, g: nat)
    requires Inv(s) && Enabled(s, PollerStopped(g)) && Guard(s, PollerStopped(g))
    ensures Inv(Next(s, PollerStopped(g)))
  {
  }

  lemma ServerClosedKeepsInv(s: State, g: nat)
    requires Inv(s) && Enabled(s, ServerClosed(g)) && Guard(s, ServerClosed(g))
    ensures Inv(Next(s, ServerClosed(g)))
  {
  }

  lemma FenceHopsKeepsInv(s: State, c: nat)
    requires Inv(s) && Enabled(s, FenceHops(c)) && Guard(s, FenceHops(c))
    ensures Inv(Next(s, FenceHops(c)))
  {
  }

  lemma StepKeepsInv(s: State, e: Event)
    requires Inv(s) && Enabled(s, e) && Guard(s, e)
    ensures Inv(Next(s, e))
  {
    match e
    case CallStart(boot) => CallStartKeepsInv(s, boot);
    case CallClose => CallCloseKeepsInv(s);
    case StartupSettles(k, ok, hostAllowed) => StartupSettlesKeepsInv(s, k, ok, hostAllowed);
    case ListenSettles(k, bind) => ListenDoneKeepsInv(s, k, bind);
    case FinallyRuns(k) => FinallyRunsKeepsInv(s, k);
    case SettleHop(k) => SettleHopKeepsInv(s, k);
    case ShutdownHop(g) => ShutdownHopKeepsInv(s, g);
    case ShutdownResumes(g) => ShutdownResumesKeepsInv(s, g);
    case DrainSettles(g, ok) => DrainSettlesKeepsInv(s, g, ok);
    case PollerStopped(g) => PollerStoppedKeepsInv(s, g);
    case ServerClosed(g) => ServerClosedKeepsInv(s, g);
    case CatchRuns(g) => CatchRunsKeepsInv(s, g);
    case FenceHops(c) => FenceHopsKeepsInv(s, c);
    case FenceResumes(c, boot) => FenceResumesKeepsInv(s, c, boot);
  }

  /** What a handler promises that takes step `e` from `s` to `t`. */
  ghost predicate KeepsInv(s: State, e: Event, t: State) {
    Enabled(s, e) && Inv(s) && Guard(s, e) ==> Inv(t)
  }

  lemma HandlerKeepsInv(s: State, e: Event)
    requires Enabled(s, e)
    ensures KeepsInv(s, e, Next(s, e))
  {
    if Inv(s) && Guard(s, e) {
      StepKeepsInv(s, e);
    }
  }

  // ---- mutual exclusion ------------------------------------------------------

  lemma InvExcludesOverlap(s: State)
    requires Inv(s)
    ensures !Overlap(s)
  {
    forall k: nat, g: nat ensures !Tramples(s, k, g) {
    }
  }

  lemma {:induction false} GuardedRunKeepsInv(s: State, r: Run)
    requires Inv(s) && IsRun(s, r) && IsGuardedRun(s, r)
    ensures Inv(After(s, r))
  {
    if r.Then? {
      GuardedRunKeepsInv(s, r.before);
      StepKeepsInv(After(s, r.before), r.e);
    }
  }

  /** Main theorem: whatever the interleaving, guarded runs never overlap. */
  lemma GuardedRunsNeverOverlap(config: Config, r: Run)
    requires IsRun(Initial(config), r) && IsGuardedRun(Initial(config), r)
    ensures Inv(After(Initial(config), r)) && !Overlap(After(Initial(config), r))
  {
    InitialInv(config);
    GuardedRunKeepsInv(Initial(config), r);
    InvExcludesOverlap(After(Initial(config), r));
  }

  /** No continuation that keeps to the guard reaches an overlap. */
  ghost predicate Safe(s: State) {
    forall r :: IsRun(s, r) && IsGuardedRun(s, r) ==> !Overlap(After(s, r))
  }

  /** Nothing holds back a `start()` that has left its fence. */
  predicate Exposed(s: State) {
    && s.starting.None? && s.address.None?
    && (s.closing.Some? ==>
        var g := s.closing.value;
        g < |s.closes| && Running(s.closes[g]) && (s.closes[g].WaitStart? ==> s.closes[g].k < |s.starts|))
  }

  lemma SingleStep(s: State, e: Event)
    requires Enabled(s, e)
    ensures IsRun(s, Then(Here, e)) && After(s, Then(Here, e)) == Next(s, e)
  {
    assert IsRun(s, Here) && After(s, Here) == s;
  }

  /** Let a loose `start()` reach its resumption. */
  lemma ReachResumption(s: State, c: nat) returns (r: Run)
    requires c < |s.calls| && Loose(s, s.calls[c]) && Exposed(s)
    ensures IsRun(s, r) && IsGuardedRun(s, r)
    ensures var t := After(s, r); c < |t.calls| && t.calls[c].FenceResume? && Exposed(t)
  {
    r := Here;
    if s.calls[c].Fenced? {
      var settle := CatchRuns(s.calls[c].g);
      SingleStep(s, settle);
      r := Then(r, settle);
      assert Exposed(Next(s, settle));
    }
    var t := After(s, r);
    assert c < |t.calls| && Ready(t.calls[c]) && Exposed(t);
    if t.calls[c].FenceHop? {
      r := Then(r, FenceHops(c));
    }
  }

  /** A `close()` called there, unless one runs already. */
  lemma ReachClose(s: State, c: nat) returns (r: Run)
    requires c < |s.calls| && Loose(s, s.calls[c]) && Exposed(s)
    ensures IsRun(s, r) && IsGuardedRun(s, r)
    ensures var t := After(s, r); c < |t.calls| && t.calls[c].FenceResume? && Exposed(t) && t.closing.Some?
  {
    r := ReachResumption(s, c);
    var t := After(s, r);
    if t.closing.None? {
      r := Then(r, CallClose);
      assert Exposed(Next(t, CallClose));
    }
  }

  lemma ResumptionTramples(t: State, c: nat)
    requires c < |t.calls| && t.calls[c].FenceResume? && Exposed(t) && t.closing.Some?
    ensures Tramples(Next(t, FenceResumes(c, Boots(true))), |t.starts|, t.closing.value)
  {
  }

  /** It then begins on top of whatever `close()` is running. */
  lemma LooseCallOverlaps(s: State, c: nat) returns (r: Run)
    requires c < |s.calls| && Loose(s, s.calls[c]) && Exposed(s)
    ensures IsRun(s, r) && IsGuardedRun(s, r) && Overlap(After(s, r))
  {
    r := ReachClose(s, c);
    var t := After(s, r);
    ResumptionTramples(t, c);
    r := Then(r, FenceResumes(c, Boots(true)));
  }

  /** Every unguarded step opens the way to an overlap. */
  lemma UnguardedStepOverlaps(s: State, e: Event) returns (r: Run)
    requires Inv(s) && Enabled(s, e) && !Guard(s, e)
    ensures IsRun(Next(s, e), r) && IsGuardedRun(Next(s, e), r) && Overlap(After(Next(s, e), r))
  {
    match e
    case FinallyRuns(k) =>
      var c: nat :| c < |s.calls| && Loose(s, s.calls[c]);
      assert s.starting == Some(k);
      r := LooseCallOverlaps(Next(s, e), c);
    case CatchRuns(g) =>
      var c: nat :| c < |s.calls| && s.calls[c] == Fenced(g);
      assert s.closing == Some(g);
      r := LooseCallOverlaps(Next(s, e), c);
  }

  /** The guard is exact: it is what separates safe steps from unsafe ones. */
  lemma GuardIsExact(s: State, e: Event)
    requires Inv(s) && Enabled(s, e)
    ensures Guard(s, e) <==> Safe(Next(s, e))
  {
    if Guard(s, e) {
      StepKeepsInv(s, e);
      forall r | IsRun(Next(s, e), r) && IsGuardedRun(Next(s, e), r)
        ensures !Overlap(After(Next(s, e), r))
      {
        GuardedRunKeepsInv(Next(s, e), r);
        InvExcludesOverlap(After(Next(s, e), r));
      }
    } else {
      var r := UnguardedStepOverlaps(s, e);
    }
  }
}
