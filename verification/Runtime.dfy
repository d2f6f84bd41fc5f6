/**
 The runtime object of `server/createRuntime.ts`: the closure variables as fields, and
 one method for each stretch of code between two awaits. Every method is proved to take
 the step of the transition system it stands for, and to keep the invariant whenever the
 guard admits that step, so the theorems about runs are theorems about this code.
 */
module Runtime {
  import opened Wrappers
  import opened RuntimeProtocol
  import opened RuntimeSafety

  class LoopTroopRuntime {
    const config: Config
    var handle: Option<nat>
    var address: Option<nat>
    var closing: Option<nat>
    var stopMergePoller: Option<nat>
    var starting: Option<nat>
    // the promises handed out, and what the runtime has started
    var starts: seq<StartPhase>
    var closes: seq<ClosePhase>
    var calls: seq<CallPhase>
    var clock: nat
    var listeners: set<nat>
    var pollers: set<nat>
    var timer: bool
    var db: bool

    function Snapshot(): State
      reads this
    {
      State(config, starting, closing, address, handle, stopMergePoller,
            starts, closes, calls, clock, listeners, pollers, timer, db)
    }

    constructor (config: Config)
      ensures Snapshot() == Initial(config)
    {
      this.config := config;
      handle, address, closing, stopMergePoller, starting := None, None, None, None, None;
      starts, closes, calls, clock := [], [], [], 0;
      listeners, pollers, timer, db := {}, {}, false, false;
    }

    // ---- start() ----

    method Start(boot: Boot)
      modifies this
      ensures Snapshot() == Next(old(Snapshot()), CallStart(boot))
      ensures KeepsInv(old(Snapshot()), CallStart(boot), Snapshot())
    {
      HandlerKeepsInv(Snapshot(), CallStart(boot));
      var c := |calls|;
      calls := calls + [HasAddress];
      if closing.Some? {
        var g := closing.value;
        if g < |closes| && closes[g].CloseSettled? {
          calls := calls[c := FenceHop(clock)];
          clock := clock + 1;
        } else {
          calls := calls[c := Fenced(g)];
        }
        return;
      }
      PastFence(c, boot);
    }

    method FenceSettled(c: nat)
      requires Enabled(Snapshot(), FenceHops(c))
      modifies this`calls, this`clock
      ensures Snapshot() == Next(old(Snapshot()), FenceHops(c))
      ensures KeepsInv(old(Snapshot()), FenceHops(c), Snapshot())
    {
      HandlerKeepsInv(Snapshot(), FenceHops(c));
      calls := calls[c := FenceResume(clock)];
      clock := clock + 1;
    }

    method FenceResumed(c: nat, boot: Boot)
      requires Enabled(Snapshot(), FenceResumes(c, boot))
      modifies this
      ensures Snapshot() == Next(old(Snapshot()), FenceResumes(c, boot))
      ensures KeepsInv(old(Snapshot()), FenceResumes(c, boot), Snapshot())
    {
      HandlerKeepsInv(Snapshot(), FenceResumes(c, boot));
      PastFence(c, boot);
    }

    /** The checks after the fence; also where a fenced call resumes. */
    method PastFence(c: nat, boot: Boot)
      requires c < |calls|
      modifies this
      ensures Snapshot() == Conclude(old(Snapshot()), c, boot)
    {
      if starting.Some? {
        calls := calls[c := Following(starting.value)];
        return;
      }
      if address.Some? {
        calls := calls[c := HasAddress];
        return;
      }
      closing := None;
      var k := RunStart(boot);
      calls := calls[c := Following(k)];
    }

    method TeardownStartedResources()
      modifies this`timer, this`db
      ensures Snapshot() == TearDown(old(Snapshot()))
    {
      timer := false;
      db := false;
    }

    // ---- runStart() ----

    method RunStart(boot: Boot) returns (k: nat)
      requires closing.None?
      modifies this
      ensures k == old(|starts|) && Snapshot() == Begin(old(Snapshot()), boot)
    {
      k := |starts|;
      starts := starts + [InStartup];
      starting := Some(k);
      match boot {
        case OriginRefused => SettleRunStart(k, false);
        case StorageFails => FailRunStart(k);
        case Boots(hostAllowed) =>
          if config.skipStartup {
            ContinueRunStart(k, hostAllowed);
          } else {
            db := true;
          }
      }
    }

    method SettleRunStart(k: nat, ok: bool)
      requires k < |starts|
      modifies this`starts, this`clock
      ensures Snapshot() == ReturnStart(old(Snapshot()), k, ok)
    {
      starts := starts[k := Returned(ok, clock)];
      clock := clock + 1;
    }

    /** The catch block around everything that acquires a resource. */
    method FailRunStart(k: nat)
      requires k < |starts|
      modifies this
      ensures Snapshot() == FailStart(old(Snapshot()), k)
    {
      TeardownStartedResources();
      SettleRunStart(k, false);
    }

    method StartupSettled(k: nat, ok: bool, hostAllowed: bool)
      requires Enabled(Snapshot(), StartupSettles(k, ok, hostAllowed))
      modifies this
      ensures Snapshot() == Next(old(Snapshot()), StartupSettles(k, ok, hostAllowed))
      ensures KeepsInv(old(Snapshot()), StartupSettles(k, ok, hostAllowed), Snapshot())
    {
      HandlerKeepsInv(Snapshot(), StartupSettles(k, ok, hostAllowed));
      if ok {
        ContinueRunStart(k, hostAllowed);
      } else {
        FailRunStart(k);
      }
    }

    method ContinueRunStart(k: nat, hostAllowed: bool)
      requires k < |starts|
      modifies this
      ensures Snapshot() == AfterStartup(old(Snapshot()), k, hostAllowed)
    {
      timer := true;
      if !hostAllowed {
        FailRunStart(k);
        return;
      }
      ListenOn(k, false);
    }

    method ListenOn(k: nat, fallback: bool)
      requires k < |starts|
      modifies this`handle, this`starts
      ensures Snapshot() == Listen(old(Snapshot()), k, fallback)
    {
      handle := Some(k);
      starts := starts[k := InListen(fallback)];
    }

    method ListenSettled(k: nat, bind: Bind)
      requires Enabled(Snapshot(), ListenSettles(k, bind))
      modifies this
      ensures Snapshot() == Next(old(Snapshot()), ListenSettles(k, bind))
      ensures KeepsInv(old(Snapshot()), ListenSettles(k, bind), Snapshot())
    {
      HandlerKeepsInv(Snapshot(), ListenSettles(k, bind));
      match bind {
        case Bound => Listening(k);
        case InUse =>
          if starts[k].fallback || config.portIsExplicit {
            BindFailed(k);
          } else {
            ListenOn(k, true);
          }
        case BindFails => BindFailed(k);
      }
    }

    method Listening(k: nat)
      requires k < |starts| && starts[k].InListen?
      modifies this
      ensures Snapshot() == ListenDone(old(Snapshot()), k, Bound)
    {
      listeners := listeners + {k};
      address := Some(k);
      if !config.skipStartup {
        pollers := pollers + {k};
        stopMergePoller := Some(k);
      }
      SettleRunStart(k, true);
    }

    method BindFailed(k: nat)
      requires k < |starts| && starts[k].InListen?
      modifies this
      ensures Snapshot() == ListenDone(old(Snapshot()), k, BindFails)
    {
      handle := None;
      FailRunStart(k);
    }

    method FinallyCallback(k: nat)
      requires Enabled(Snapshot(), FinallyRuns(k))
      modifies this`starting, this`starts, this`clock
      ensures Snapshot() == Next(old(Snapshot()), FinallyRuns(k))
      ensures KeepsInv(old(Snapshot()), FinallyRuns(k), Snapshot())
    {
      HandlerKeepsInv(Snapshot(), FinallyRuns(k));
      starting := None;
      starts := starts[k := Cleared(starts[k].ok, 1, clock)];
      clock := clock + 1;
    }

    /** The jobs between the callback and the settlement of the `starting` promise. */
    method StartingSettles(k: nat)
      requires Enabled(Snapshot(), SettleHop(k))
      modifies this`starts, this`closes, this`clock
      ensures Snapshot() == Next(old(Snapshot()), SettleHop(k))
      ensures KeepsInv(old(Snapshot()), SettleHop(k), Snapshot())
    {
      HandlerKeepsInv(Snapshot(), SettleHop(k));
      var phase := starts[k];
      if phase.hops > 0 {
        starts := starts[k := Cleared(phase.ok, phase.hops - 1, clock)];
        clock := clock + 1;
      } else {
        starts := starts[k := StartSettled(phase.ok)];
        closes := WakeCloses(closes, k, clock);
        clock := clock + |closes|;
      }
    }

    // ---- close() ----

    method Close()
      modifies this
      ensures Snapshot() == Next(old(Snapshot()), CallClose)
      ensures KeepsInv(old(Snapshot()), CallClose, Snapshot())
    {
      HandlerKeepsInv(Snapshot(), CallClose);
      if closing.Some? {
        return;
      }
      var g := |closes|;
      if starting.Some? {
        closes := closes + [WaitStart(starting.value)];
      } else {
        closes := closes + [WaitResume(clock)];
        Shutdown(g);
      }
      closing := Some(g);
    }

    method ShutdownHops(g: nat)
      requires Enabled(Snapshot(), ShutdownHop(g))
      modifies this`closes, this`clock
      ensures Snapshot() == Next(old(Snapshot()), ShutdownHop(g))
      ensures KeepsInv(old(Snapshot()), ShutdownHop(g), Snapshot())
    {
      HandlerKeepsInv(Snapshot(), ShutdownHop(g));
      closes := closes[g := WaitResume(clock)];
      clock := clock + 1;
    }

    /** From the end of the wait on `starting` to the first drain. */
    method Shutdown(g: nat)
      requires g < |closes|
      modifies this`stopMergePoller, this`closes
      ensures Snapshot() == BeginShutdown(old(Snapshot()), g)
      ensures KeepsInv(old(Snapshot()), ShutdownResumes(g), Snapshot())
    {
      if closes[g].WaitResume? {
        HandlerKeepsInv(Snapshot(), ShutdownResumes(g));
      }
      var currentHandle := handle;
      var pollerStopped := stopMergePoller;
      stopMergePoller := None;
      closes := closes[g := Draining(FirstDrain, currentHandle, pollerStopped)];
    }

    method DrainSettled(g: nat, ok: bool)
      requires Enabled(Snapshot(), DrainSettles(g, ok))
      modifies this
      ensures Snapshot() == Next(old(Snapshot()), DrainSettles(g, ok))
      ensures KeepsInv(old(Snapshot()), DrainSettles(g, ok), Snapshot())
    {
      HandlerKeepsInv(Snapshot(), DrainSettles(g, ok));
      if closes[g].stage == FirstDrain {
        closes := closes[g := closes[g].(stage := PollerStop)];
        return;
      }
      if ok {
        handle := None;
        address := None;
        TeardownStartedResources();
      }
      closes := closes[g := Finished(ok, clock)];
      clock := clock + 1;
    }

    method PollerHasStopped(g: nat)
      requires Enabled(Snapshot(), PollerStopped(g))
      modifies this`closes, this`pollers
      ensures Snapshot() == Next(old(Snapshot()), PollerStopped(g))
      ensures KeepsInv(old(Snapshot()), PollerStopped(g), Snapshot())
    {
      HandlerKeepsInv(Snapshot(), PollerStopped(g));
      pollers := WithoutId(pollers, closes[g].poller);
      closes := closes[g := closes[g].(stage := ServerClose)];
    }

    method ServerHasClosed(g: nat)
      requires Enabled(Snapshot(), ServerClosed(g))
      modifies this`closes, this`listeners
      ensures Snapshot() == Next(old(Snapshot()), ServerClosed(g))
      ensures KeepsInv(old(Snapshot()), ServerClosed(g), Snapshot())
    {
      HandlerKeepsInv(Snapshot(), ServerClosed(g));
      listeners := WithoutId(listeners, closes[g].server);
      closes := closes[g := closes[g].(stage := SecondDrain)];
    }

    /** The catch handler of `closing`: a failed drain lets the next close() retry. */
    method CatchCallback(g: nat)
      requires Enabled(Snapshot(), CatchRuns(g))
      modifies this`closing, this`closes, this`calls, this`clock
      ensures Snapshot() == Next(old(Snapshot()), CatchRuns(g))
      ensures KeepsInv(old(Snapshot()), CatchRuns(g), Snapshot())
    {
      HandlerKeepsInv(Snapshot(), CatchRuns(g));
      var ok, woken := closes[g].ok, WakeCalls(calls, g, clock);
      if !ok {
        closing := None;
      }
      closes, calls, clock := closes[g := CloseSettled(ok)], woken, clock + |woken|;
    }
  }
}
