/**
 The order in which an engine runs jobs, with a condition on the surroundings, is enough
 for the start/close protocol to be safe.
 */
module RuntimeOrder {
  import opened Wrappers
  import opened RuntimeProtocol
  import opened RuntimeSafety

  // ---- what the surroundings promise --------------------------------------------

  /** `runStart` cannot fail before its first await. */
  predicate BootsWell(config: Config, boot: Boot) {
    boot.Boots? && (config.skipStartup ==> boot.hostAllowed)
  }

  /** Second drains succeed and no startup fails synchronously. */
  predicate Smooth(s: State, e: Event)
    requires Enabled(s, e)
  {
    match e
    case CallStart(boot) => BootsWell(s.config, boot)
    case FenceResumes(_, boot) => BootsWell(s.config, boot)
    case DrainSettles(g, ok) => s.closes[g].stage == SecondDrain ==> ok
    case _ => true
  }

  predicate IsSmoothRun(s: State, r: Run)
    requires IsRun(s, r)
  {
    r.Then? ==> IsSmoothRun(s, r.before) && Smooth(After(s, r.before), r.e)
  }

  // ---- what the engine promises ----------------------------------------------------

  /** No job is waiting that was queued before `since`. */
  predicate NoneBefore(s: State, since: nat) {
    && (forall k: nat :: k < |s.starts| && StartJob(s.starts[k]).Some? ==> StartJob(s.starts[k]).value >= since)
    && (forall g: nat :: g < |s.closes| && CloseJob(s.closes[g]).Some? ==> CloseJob(s.closes[g]).value >= since)
    && (forall c: nat :: c < |s.calls| && CallJob(s.calls[c]).Some? ==> CallJob(s.calls[c]).value >= since)
  }

  /**
   What a startup awaits may be settled already, or settle at any time, but the startup goes
   on only after the jobs queued before it began to wait. What a shutdown awaits settles at
   any time at all, and so do calls come; every other job waits for the older ones.
   */
  predicate InOrder(s: State, e: Event, since: nat)
    requires Enabled(s, e)
  {
    if e.StartupSettles? || e.ListenSettles? then NoneBefore(s, since)
    else IsSettlement(e) || Fifo(s, e)
  }

  /** The time at which the startup in flight began what it waits for. */
  function WaitsSince(s: State, r: Run): nat
    requires IsRun(s, r)
  {
    match r
    case Here => s.clock
    case Then(before, e) => SinceNow(After(s, before), e, WaitsSince(s, before))
  }

  function SinceNow(s: State, e: Event, since: nat): nat
    requires Enabled(s, e)
  {
    if Next(s, e).starting == s.starting && Current(Next(s, e)) == Current(s) then since else s.clock
  }

  predicate IsOrderedRun(s: State, r: Run)
    requires IsRun(s, r)
  {
    r.Then? ==> IsOrderedRun(s, r.before) && InOrder(After(s, r.before), r.e, WaitsSince(s, r.before))
  }

  /** The runs whose settlements wait for an empty queue are among these. */
  lemma {:induction false} FifoRunsAreOrdered(s: State, r: Run)
    requires IsRun(s, r) && IsFifoRun(s, r)
    ensures IsOrderedRun(s, r)
  {
    if r.Then? {
      FifoRunsAreOrdered(s, r.before);
      if IsSettlement(r.e) {
        NothingQueued(After(s, r.before), r.e, WaitsSince(s, r.before));
      }
    }
  }

  lemma NothingQueued(s: State, e: Event, since: nat)
    requires Enabled(s, e) && IsSettlement(e) && Fifo(s, e)
    ensures NoneBefore(s, since)
  {
    assert Ticket(s, e).None?;
  }

  // ---- no start() is between fence and resumption when `starting` is cleared ----------

  ghost predicate NoFailedDrain(s: State) {
    forall g: nat :: g < |s.closes| && s.closes[g].Finished? ==> s.closes[g].ok
  }

  /** While a startup runs, a `start()` out of its fence resumes before that startup's `finally` callback can. */
  predicate ComesFirst(s: State, since: nat, call: CallPhase)
    requires Ready(call)
  {
    match Current(s)
    case None => Fence(s) == Some(CloseSettled(true))
    case Some(phase) =>
      if phase.Returned? then call.FenceResume? && call.ticket < phase.ticket
      else call.FenceResume? || call.ticket < since
  }

  ghost predicate CallsInTime(s: State, since: nat) {
    forall c: nat :: c < |s.calls| ==> CallInTime(s, since, s.calls[c])
  }

  predicate CallInTime(s: State, since: nat, call: CallPhase) {
    && (call.Fenced? ==> s.closing == Some(call.g))
    && (Ready(call) ==> call.ticket < s.clock && ComesFirst(s, since, call))
  }

  ghost predicate SmoothInv(s: State, since: nat) {
    Inv(s) && NoFailedDrain(s) && CallsInTime(s, since)
  }

  lemma SmoothStepIsGuarded(s: State, e: Event, since: nat)
    requires SmoothInv(s, since) && Enabled(s, e) && Smooth(s, e) && InOrder(s, e, since)
    ensures Guard(s, e)
  {
    if e.FinallyRuns? {
      NoneIsLeft(s, e.k, since);
    }
  }

  /** When the callback runs, every `start()` ahead of it has resumed. */
  lemma NoneIsLeft(s: State, k: nat, since: nat)
    requires SmoothInv(s, since) && Enabled(s, FinallyRuns(k)) && Fifo(s, FinallyRuns(k))
    ensures forall c: nat :: c < |s.calls| ==> !Ready(s.calls[c]) && !Loose(s, s.calls[c])
  {
    assert s.starting == Some(k);
    forall c: nat | c < |s.calls| ensures !Ready(s.calls[c]) && !Loose(s, s.calls[c]) {
      assert CallInTime(s, since, s.calls[c]);
      assert NoLater(StartJob(s.starts[k]), CallJob(s.calls[c]));
    }
  }

  lemma SmoothStepKeepsDrains(s: State, e: Event)
    requires NoFailedDrain(s) && Enabled(s, e) && Smooth(s, e)
    ensures NoFailedDrain(Next(s, e))
  {
    match e
    case StartupSettles(k, ok, hostAllowed) => var _ := StartupShape(s, k, ok, hostAllowed);
    case ListenSettles(k, bind) => var _ := ListenShape(s, k, bind);
    case CallStart(boot) => var _ := BeginShape(s.(calls := s.calls + [HasAddress]), boot);
    case FenceResumes(_, boot) => var _ := BeginShape(s, boot);
    case _ =>
      if IsShutdownStep(e) {
        var _ := ShutdownShape(s, e);
      }
  }

  /** Nothing a call depends on has changed. */
  lemma SameCalls(s: State, t: State, since: nat)
    requires CallsInTime(s, since) && t.calls == s.calls && t.clock >= s.clock
    requires t.starting == s.starting && t.closing == s.closing && Current(t) == Current(s)
    requires s.starting.None? && Fence(s) == Some(CloseSettled(true)) ==> Fence(t) == Fence(s)
    requires s.starting.Some? ==> Current(s).Some?
    ensures CallsInTime(t, since)
  {
    forall c: nat | c < |t.calls| ensures CallInTime(t, since, t.calls[c]) {
      assert CallInTime(s, since, s.calls[c]);
    }
  }

  /** A startup that begins finds no call at a fence, and those past it ahead of itself. */
  lemma BeginInTime(s: State, c: nat, boot: Boot, since: nat)
    requires SmoothInv(s, since) && c < |s.calls| && BootsWell(s.config, boot)
    requires s.starting.None? && s.address.None? && (s.closing.None? || Ready(s.calls[c]))
    ensures CallsInTime(Conclude(s, c, boot), s.clock)
  {
    var t := Conclude(s, c, boot);
    assert CallInTime(s, since, s.calls[c]);
    assert Current(t).Some? && InFlight(Current(t).value);
    forall d: nat | d < |t.calls| ensures CallInTime(t, s.clock, t.calls[d]) {
      if d != c {
        assert CallInTime(s, since, s.calls[d]);
      }
    }
  }

  lemma ConcludeInTime(s: State, c: nat, boot: Boot, since: nat)
    requires SmoothInv(s, since) && c < |s.calls| && BootsWell(s.config, boot)
    requires s.closing.None? || Ready(s.calls[c])
    ensures var t := Conclude(s, c, boot);
      CallsInTime(t, if t.starting == s.starting && Current(t) == Current(s) then since else s.clock)
  {
    if s.starting.None? && s.address.None? {
      BeginInTime(s, c, boot, since);
    } else {
      var t := Conclude(s, c, boot);
      forall d: nat | d < |t.calls| ensures CallInTime(t, since, t.calls[d]) {
        if d != c {
          assert CallInTime(s, since, s.calls[d]);
        }
      }
    }
  }

  lemma CallStartInTime(s: State, boot: Boot, since: nat)
    requires SmoothInv(s, since) && BootsWell(s.config, boot)
    ensures CallsInTime(Next(s, CallStart(boot)), SinceNow(s, CallStart(boot), since))
  {
    var t := Next(s, CallStart(boot));
    if s.closing.None? {
      var s' := s.(calls := s.calls + [HasAddress]);
      assert SmoothInv(s', since) by {
        forall c: nat | c < |s'.calls| ensures CallInTime(s', since, s'.calls[c]) {
          assert c < |s.calls| ==> CallInTime(s, since, s.calls[c]);
        }
      }
      ConcludeInTime(s', |s.calls|, boot, since);
    } else {
      forall c: nat | c < |t.calls| ensures CallInTime(t, since, t.calls[c]) {
        assert c < |s.calls| ==> CallInTime(s, since, s.calls[c]);
      }
    }
  }

  /** The calls a settled fence lets go find no startup running. */
  lemma CatchInTime(s: State, g: nat, since: nat)
    requires SmoothInv(s, since) && Enabled(s, CatchRuns(g))
    ensures CallsInTime(Next(s, CatchRuns(g)), since)
  {
    var t := Next(s, CatchRuns(g));
    forall c: nat | c < |t.calls| ensures CallInTime(t, since, t.calls[c]) {
      assert CallInTime(s, since, s.calls[c]);
    }
  }

  lemma HopInTime(s: State, c: nat, since: nat)
    requires SmoothInv(s, since) && Enabled(s, FenceHops(c))
    ensures CallsInTime(Next(s, FenceHops(c)), since)
  {
    var t := Next(s, FenceHops(c));
    assert CallInTime(s, since, s.calls[c]);
    forall d: nat | d < |t.calls| ensures CallInTime(t, since, t.calls[d]) {
      assert CallInTime(s, since, s.calls[d]);
    }
  }

  lemma SettlementShape(s: State, e: Event)
    requires Inv(s) && Enabled(s, e) && (e.StartupSettles? || e.ListenSettles?)
    ensures var t := Next(s, e);
      && t.calls == s.calls && t.closing == s.closing && t.clock >= s.clock
      && s.starting == t.starting == Some(e.k) && Current(t).Some? && Current(t) != Current(s)
    ensures var p := Current(Next(s, e)).value;
      p.Returned? ==> p.ticket == s.clock
    ensures InFlight(Current(s).value)
  {
    assert s.starting == Some(e.k);
    match e
    case StartupSettles(k, ok, hostAllowed) => var _ := StartupShape(s, k, ok, hostAllowed);
    case ListenSettles(k, bind) => var _ := ListenShape(s, k, bind);
  }

  /** A settlement of what the startup awaits: the calls it may not overtake are past their first job. */
  lemma SettlementInTime(s: State, e: Event, since: nat)
    requires SmoothInv(s, since) && Enabled(s, e) && (e.StartupSettles? || e.ListenSettles?) && NoneBefore(s, since)
    ensures CallsInTime(Next(s, e), s.clock) && SinceNow(s, e, since) == s.clock
  {
    SettlementShape(s, e);
    var t := Next(s, e);
    forall c: nat | c < |t.calls| ensures CallInTime(t, s.clock, t.calls[c]) {
      PastItsHop(s, t, s.calls[c], since);
    }
  }

  lemma PastItsHop(s: State, t: State, call: CallPhase, since: nat)
    requires CallInTime(s, since, call) && (CallJob(call).Some? ==> CallJob(call).value >= since)
    requires t.closing == s.closing && t.clock >= s.clock
    requires Current(s).Some? && InFlight(Current(s).value) && Current(t).Some?
    requires Current(t).value.Returned? ==> Current(t).value.ticket == s.clock
    ensures CallInTime(t, s.clock, call)
  {
  }

  lemma FinallyInTime(s: State, k: nat, since: nat)
    requires SmoothInv(s, since) && Enabled(s, FinallyRuns(k)) && Fifo(s, FinallyRuns(k))
    ensures CallsInTime(Next(s, FinallyRuns(k)), s.clock)
  {
    NoneIsLeft(s, k, since);
    var t := Next(s, FinallyRuns(k));
    forall c: nat | c < |t.calls| ensures CallInTime(t, s.clock, t.calls[c]) {
      assert CallInTime(s, since, s.calls[c]);
    }
  }

  lemma CloseInTime(s: State, since: nat)
    requires SmoothInv(s, since)
    ensures CallsInTime(Next(s, CallClose), since)
  {
    var t := Next(s, CallClose);
    forall c: nat | c < |t.calls| ensures CallInTime(t, since, t.calls[c]) {
      assert CallInTime(s, since, s.calls[c]);
    }
  }

  lemma SettleHopShape(s: State, k: nat)
    requires Enabled(s, SettleHop(k)) && s.starting != Some(k)
    ensures var t := Next(s, SettleHop(k));
      && t.calls == s.calls && t.clock >= s.clock && t.starting == s.starting && t.closing == s.closing
      && Current(t) == Current(s) && (Fence(s) == Some(CloseSettled(true)) ==> Fence(t) == Fence(s))
  {
  }

  lemma HopKeepsCalls(s: State, k: nat, since: nat)
    requires StartsOwned(s) && CallsInTime(s, since) && Enabled(s, SettleHop(k))
    ensures CallsInTime(Next(s, SettleHop(k)), since) && SinceNow(s, SettleHop(k), since) == since
  {
    SettleHopShape(s, k);
    SameCalls(s, Next(s, SettleHop(k)), since);
  }

  lemma ShutdownKeepsCalls(s: State, e: Event, since: nat)
    requires SmoothInv(s, since) && Enabled(s, e) && IsShutdownStep(e)
    ensures CallsInTime(Next(s, e), since) && SinceNow(s, e, since) == since
  {
    var _ := ShutdownShape(s, e);
    SameCalls(s, Next(s, e), since);
  }

  lemma SmoothStepInTime(s: State, e: Event, since: nat)
    requires SmoothInv(s, since) && Enabled(s, e) && Smooth(s, e) && InOrder(s, e, since)
    ensures CallsInTime(Next(s, e), SinceNow(s, e, since))
  {
    match e
    case CallStart(boot) => CallStartInTime(s, boot, since);
    case CallClose => CloseInTime(s, since);
    case StartupSettles(_, _, _) => SettlementInTime(s, e, since);
    case ListenSettles(_, _) => SettlementInTime(s, e, since);
    case FinallyRuns(k) => FinallyInTime(s, k, since); assert s.starting == Some(k);
    case CatchRuns(g) => CatchInTime(s, g, since);
    case FenceHops(c) => HopInTime(s, c, since);
    case FenceResumes(c, boot) => ConcludeInTime(s, c, boot, since);
    case SettleHop(k) => HopKeepsCalls(s, k, since);
    case _ => ShutdownKeepsCalls(s, e, since);
  }

  lemma {:induction false} SmoothRunKeepsInv(config: Config, r: Run)
    requires IsRun(Initial(config), r) && IsSmoothRun(Initial(config), r) && IsOrderedRun(Initial(config), r)
    ensures SmoothInv(After(Initial(config), r), WaitsSince(Initial(config), r))
  {
    var s := Initial(config);
    if r.Then? {
      SmoothRunKeepsInv(config, r.before);
      var t, since := After(s, r.before), WaitsSince(s, r.before);
      SmoothStepIsGuarded(t, r.e, since);
      StepKeepsInv(t, r.e);
      SmoothStepKeepsDrains(t, r.e);
      SmoothStepInTime(t, r.e, since);
    } else {
      InitialInv(config);
    }
  }

  /** In job order, with second drains that succeed and startups that fail no earlier than at their first await. */
  lemma SmoothRunsNeverOverlap(config: Config, r: Run)
    requires IsRun(Initial(config), r) && IsSmoothRun(Initial(config), r) && IsOrderedRun(Initial(config), r)
    ensures Inv(After(Initial(config), r)) && !Overlap(After(Initial(config), r))
  {
    SmoothRunKeepsInv(config, r);
    InvExcludesOverlap(After(Initial(config), r));
  }
}
