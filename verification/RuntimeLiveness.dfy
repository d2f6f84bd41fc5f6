/**
 No call of `start()` or `close()` waits for ever. Unlike mutual exclusion this needs no
 guard: it holds of every run.
 */
module RuntimeLiveness {
  import opened Wrappers
  import opened RuntimeProtocol

  /** Whatever somebody waits on exists and has not settled yet. */
  ghost predicate Linked(s: State) {
    && (s.starting.Some? ==> s.starting.value < |s.starts| && Busy(s.starts[s.starting.value]))
    && (s.closing.Some? ==> s.closing.value < |s.closes|)
    && (forall k: nat :: k < |s.starts| && s.starts[k].Cleared? ==> s.starts[k].hops <= 1)
    && (forall g: nat :: g < |s.closes| && s.closes[g].WaitStart? ==>
          s.closes[g].k < |s.starts| && !s.starts[s.closes[g].k].StartSettled?)
    && (forall c: nat :: c < |s.calls| && s.calls[c].Fenced? ==>
          s.calls[c].g < |s.closes| && !s.closes[s.calls[c].g].CloseSettled?)
  }

  // ---- a measure every step but a call decreases ---------------------------------

  function Total<T>(xs: seq<T>, work: T -> nat): nat {
    if xs == [] then 0 else Total(xs[..|xs| - 1], work) + work(xs[|xs| - 1])
  }

  lemma {:induction false} TotalUpdate<T>(xs: seq<T>, work: T -> nat, i: nat, x: T)
    requires i < |xs|
    ensures Total(xs[i := x], work) == Total(xs, work) - work(xs[i]) + work(x)
  {
    var n := |xs| - 1;
    if i < n {
      assert xs[i := x][..n] == xs[..n][i := x];
      TotalUpdate(xs[..n], work, i, x);
    } else {
      assert xs[i := x][..n] == xs[..n];
    }
  }

  lemma TotalAppend<T>(xs: seq<T>, work: T -> nat, x: T)
    ensures Total(xs + [x], work) == Total(xs, work) + work(x)
  {
    assert (xs + [x])[..|xs|] == xs;
  }

  lemma {:induction false} TotalMono<T>(xs: seq<T>, ys: seq<T>, work: T -> nat)
    requires |xs| == |ys| && forall i :: 0 <= i < |xs| ==> work(xs[i]) <= work(ys[i])
    ensures Total(xs, work) <= Total(ys, work)
  {
    if xs != [] {
      TotalMono(xs[..|xs| - 1], ys[..|ys| - 1], work);
    }
  }

  function CallWork(p: CallPhase): nat {
    match p
    case Fenced(_) => 10
    case FenceHop(_) => 9
    case FenceResume(_) => 8
    case Following(_) => 0
    case HasAddress => 0
  }

  function Measure(s: State): nat {
    Total(s.starts, StartWork) + Total(s.closes, CloseWork) + Total(s.calls, CallWork)
  }

  /** One busy start moving on leaves all links intact. */
  lemma BusyMoveKeepsLinks(s: State, s': State, k: nat, p: StartPhase)
    requires Linked(s) && k < |s.starts| && s'.starts == s.starts[k := p] && Busy(p)
    requires s'.starting == s.starting && s'.closing == s.closing && s'.closes == s.closes && s'.calls == s.calls
    ensures Linked(s')
  {
  }

  lemma DecideKeepsLinks(s: State, c: nat, boot: Boot)
    requires Linked(s) && c < |s.calls|
    ensures Linked(Conclude(s, c, boot))
  {
    if s.starting.None? && s.address.None? {
      var p := BeginShape(s, boot);
    }
  }

  lemma CallKeepsLinks(s: State, e: Event)
    requires Linked(s) && Enabled(s, e) && IsCall(e)
    ensures Linked(Next(s, e))
  {
    if e.CallStart? && s.closing.None? {
      var s' := s.(calls := s.calls + [HasAddress]);
      assert Linked(s');
      DecideKeepsLinks(s', |s.calls|, e.boot);
    }
  }

  lemma LastHopKeepsLinks(s: State, k: nat)
    requires Linked(s) && Enabled(s, SettleHop(k)) && s.starts[k].hops == 0
    ensures Linked(Next(s, SettleHop(k)))
  {
  }

  lemma SettleHopKeepsLinks(s: State, k: nat)
    requires Linked(s) && Enabled(s, SettleHop(k))
    ensures Linked(Next(s, SettleHop(k)))
  {
    if s.starts[k].hops == 0 {
      LastHopKeepsLinks(s, k);
    }
  }

  lemma ShutdownMoveKeepsLinks(s: State, s': State, g: nat, p: ClosePhase)
    requires Linked(s) && g < |s.closes| && s'.closes == s.closes[g := p]
    requires !p.WaitStart? && !p.CloseSettled?
    requires s'.starting == s.starting && s'.closing == s.closing && s'.starts == s.starts && s'.calls == s.calls
    ensures Linked(s')
  {
  }

  lemma CatchKeepsLinks(s: State, g: nat)
    requires Linked(s) && Enabled(s, CatchRuns(g))
    ensures Linked(Next(s, CatchRuns(g)))
  {
  }

  lemma StepKeepsLinks(s: State, e: Event)
    requires Linked(s) && Enabled(s, e)
    ensures Linked(Next(s, e))
  {
    match e
    case CallStart(_) => CallKeepsLinks(s, e);
    case CallClose => CallKeepsLinks(s, e);
    case StartupSettles(k, ok, hostAllowed) =>
      var p := StartupShape(s, k, ok, hostAllowed);
      BusyMoveKeepsLinks(s, Next(s, e), k, p);
    case ListenSettles(k, bind) =>
      var p := ListenShape(s, k, bind);
      BusyMoveKeepsLinks(s, Next(s, e), k, p);
    case FinallyRuns(_) =>
    case SettleHop(k) => SettleHopKeepsLinks(s, k);
    case CatchRuns(g) => CatchKeepsLinks(s, g);
    case FenceHops(c) =>
    case FenceResumes(c, boot) => DecideKeepsLinks(s, c, boot);
    case _ =>
      if IsShutdownStep(e) {
        var p := ShutdownShape(s, e);
        ShutdownMoveKeepsLinks(s, Next(s, e), e.g, p);
      }
  }

  lemma HopDecreases(s: State, k: nat)
    requires Linked(s) && Enabled(s, SettleHop(k)) && s.starts[k].hops > 0
    ensures Measure(Next(s, SettleHop(k))) < Measure(s)
  {
    TotalUpdate(s.starts, StartWork, k, Next(s, SettleHop(k)).starts[k]);
  }

  lemma LastHopDecreases(s: State, k: nat)
    requires Linked(s) && Enabled(s, SettleHop(k)) && s.starts[k].hops == 0
    ensures Measure(Next(s, SettleHop(k))) < Measure(s)
  {
    var s' := Next(s, SettleHop(k));
    TotalUpdate(s.starts, StartWork, k, s'.starts[k]);
    TotalMono(s'.closes, s.closes, CloseWork);
  }

  lemma SettleHopDecreases(s: State, k: nat)
    requires Linked(s) && Enabled(s, SettleHop(k))
    ensures Measure(Next(s, SettleHop(k))) < Measure(s)
  {
    if s.starts[k].hops > 0 {
      HopDecreases(s, k);
    } else {
      LastHopDecreases(s, k);
    }
  }

  lemma CatchDecreases(s: State, g: nat)
    requires Enabled(s, CatchRuns(g))
    ensures Measure(Next(s, CatchRuns(g))) < Measure(s)
  {
    var s' := Next(s, CatchRuns(g));
    TotalUpdate(s.closes, CloseWork, g, s'.closes[g]);
    TotalMono(s'.calls, s.calls, CallWork);
  }

  /** Beginning a startup costs less than the fence that led to it. */
  lemma ResumeDecreases(s: State, c: nat, boot: Boot)
    requires Enabled(s, FenceResumes(c, boot))
    ensures Measure(Conclude(s, c, boot)) < Measure(s)
  {
    if s.starting.None? && s.address.None? {
      var p := BeginShape(s, boot);
      TotalAppend(s.starts, StartWork, p);
      TotalUpdate(s.calls, CallWork, c, Following(|s.starts|));
    } else if s.starting.Some? {
      TotalUpdate(s.calls, CallWork, c, Following(s.starting.value));
    } else {
      TotalUpdate(s.calls, CallWork, c, HasAddress);
    }
  }

  lemma StepDecreases(s: State, e: Event)
    requires Linked(s) && Enabled(s, e) && !IsCall(e)
    ensures Measure(Next(s, e)) < Measure(s)
  {
    if IsShutdownStep(e) {
      var p := ShutdownShape(s, e);
      TotalUpdate(s.closes, CloseWork, e.g, p);
    } else {
      match e
      case StartupSettles(k, ok, hostAllowed) =>
        var p := StartupShape(s, k, ok, hostAllowed);
        TotalUpdate(s.starts, StartWork, k, p);
      case ListenSettles(k, bind) =>
        var p := ListenShape(s, k, bind);
        TotalUpdate(s.starts, StartWork, k, p);
      case FinallyRuns(k) => TotalUpdate(s.starts, StartWork, k, Cleared(s.starts[k].ok, 1, s.clock));
      case SettleHop(k) => SettleHopDecreases(s, k);
      case CatchRuns(g) => CatchDecreases(s, g);
      case FenceHops(c) => TotalUpdate(s.calls, CallWork, c, FenceResume(s.clock));
      case FenceResumes(c, boot) => ResumeDecreases(s, c, boot);
      case _ =>
    }
  }

  // ---- no deadlock -------------------------------------------------------------

  /** Every promise anybody was handed has settled, and nobody is at a fence. */
  ghost predicate AllSettled(s: State) {
    && (forall k: nat :: k < |s.starts| ==> s.starts[k].StartSettled?)
    && (forall g: nat :: g < |s.closes| ==> s.closes[g].CloseSettled?)
    && (forall c: nat :: c < |s.calls| ==> s.calls[c].Following? || s.calls[c].HasAddress?)
  }

  function StartEvent(k: nat, p: StartPhase): Event {
    match p
    case InStartup => StartupSettles(k, true, true)
    case InListen(_) => ListenSettles(k, Bound)
    case Returned(_, _) => FinallyRuns(k)
    case _ => SettleHop(k)
  }

  function CloseEvent(g: nat, p: ClosePhase): Event {
    match p
    case WaitHop(_) => ShutdownHop(g)
    case WaitResume(_) => ShutdownResumes(g)
    case Draining(stage, _, _) =>
      (match stage
       case PollerStop => PollerStopped(g)
       case ServerClose => ServerClosed(g)
       case _ => DrainSettles(g, true))
    case _ => CatchRuns(g)
  }

  /** Follow whom a call waits on: shutdowns wait on startups, which wait on nobody here. */
  lemma UnsettledCanMove(s: State) returns (e: Event)
    requires Linked(s) && !AllSettled(s)
    ensures Enabled(s, e) && !IsCall(e)
  {
    if k: nat :| k < |s.starts| && !s.starts[k].StartSettled? {
      e := StartEvent(k, s.starts[k]);
    } else if g: nat :| g < |s.closes| && !s.closes[g].CloseSettled? {
      e := CloseEvent(g, s.closes[g]);
    } else {
      var c: nat :| c < |s.calls| && !s.calls[c].Following? && !s.calls[c].HasAddress?;
      e := if s.calls[c].FenceHop? then FenceHops(c) else FenceResumes(c, OriginRefused);
    }
  }

  lemma {:induction false} RunKeepsLinks(s: State, r: Run)
    requires Linked(s) && IsRun(s, r)
    ensures Linked(After(s, r))
  {
    if r.Then? {
      RunKeepsLinks(s, r.before);
      StepKeepsLinks(After(s, r.before), r.e);
    }
  }

  function Length(r: Run): nat {
    if r.Here? then 0 else Length(r.before) + 1
  }

  predicate NoCalls(r: Run) {
    r.Then? ==> NoCalls(r.before) && !IsCall(r.e)
  }

  lemma {:induction false} QuietRunsAreShort(s: State, r: Run)
    requires Linked(s) && IsRun(s, r) && NoCalls(r)
    ensures Measure(After(s, r)) + Length(r) <= Measure(s)
  {
    if r.Then? {
      QuietRunsAreShort(s, r.before);
      RunKeepsLinks(s, r.before);
      StepDecreases(After(s, r.before), r.e);
    }
  }

  /**
   After any run whatsoever, once nobody calls any more: the steps left are bounded, and
   a state without a step left is one in which every call has settled.
   */
  lemma EveryCallSettles(config: Config, r: Run, q: Run)
    requires IsRun(Initial(config), r)
    requires IsRun(After(Initial(config), r), q) && NoCalls(q)
    ensures var s := After(Initial(config), r);
      && Length(q) <= Measure(s)
      && ((forall e :: Enabled(After(s, q), e) ==> IsCall(e)) ==> AllSettled(After(s, q)))
  {
    var s := After(Initial(config), r);
    RunKeepsLinks(Initial(config), r);
    QuietRunsAreShort(s, q);
    RunKeepsLinks(s, q);
    if !AllSettled(After(s, q)) {
      var e := UnsettledCanMove(After(s, q));
    }
  }
}
