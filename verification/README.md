# LoopTroop protocols and release machinery, verified in Dafny

These modules model the parts of LoopTroop whose promises range over whole runs, and prove
the promises. Where the source computes, the model is functions and lemmas; where it changes
variables in loops or across awaits, the model is methods and classes proved against those
functions.

| part | modules |
|---|---|
| Starting and closing the embedded server while calls interleave at every `await` | `RuntimeProtocol` (the transition system), `Runtime` (the closure as a class), `RuntimeSafety`, `RuntimeOrder`, `RuntimeOutcomes`, `RuntimeLiveness` |
| Tagging one container release in several registries, with crashes, repairs and others writing meanwhile | `ContainerTags`, `ContainerManifest`, `ContainerHistory`, `ContainerRuns` |
| Searching a set of dependency updates that installs, and the release-age gate | `DependencyUpdates`, `ReleaseAge` |
| Version orders, and the changelog rewrite of a version bump | `Versions`, `VersionOrder`, `OrderLaws`, `Changelog`, `ChangelogBump`, `ChangelogRelease`, `ChangelogContract`, `ChangelogRepeat`, `ChangelogEffect`, `ChangelogText`, `ChangelogLoss`, `ChangelogNotes` |
| Publishing a descriptor into a package channel others write to as well | `PackageManifests`, `ManifestReadBack`, `ChannelState`, `ChannelPush`, `ChannelTap` |
| Which processes a dev preflight terminates | `ProcessForest`, `ProcessTrees`, `ProcessRoots`, `Preflight` |
| Text transformers: release notes, terminal escapes, command lines | `ContainerNotes`, `Ansi`, `CliArgs`, `CliLines` |
| Where a partially finished release stands | `ReleaseState` |

`Text` and `Wrappers` hold the scanners and result types they share. `dafny verify
dfyconfig.toml` checks everything.

## Where the code does not do what its comments promise

* `server/createRuntime.ts:108-121` says two concurrent starts cannot both begin. They cannot
  begin at once, but a `start()` that leaves an old fence does not look at `closing` again:
  when a first startup fails before its first await, say because `ensureStorageDirs()` throws
  once (line 160), its callback clears `starting` just before a second `start()` resumes, and a
  `close()` called in between is started upon. `RuntimeOutcomes.EagerFailureOverlaps` gives the
  run; every drain in it succeeds, the origin and the host are accepted every time, and its job
  order is the engine's. A failed drain (lines 256-261) opens the same gap without any failing
  startup (`FailedDrainOverlaps`). `RuntimeSafety.GuardIsExact` says exactly which steps are safe.
* `scripts/container-manifest.ts:229` compares manifests as sets, so a re-tag that lists them
  in another order changes the index; if it dies between two registries they disagree and
  every later run is refused (`ContainerHistory.SwappedRetagJams`, with an instance in
  `SwappedRetagHappens`). The workflows pass a fixed order, under which the index is stable.
* Lines 311-318 of the same script compare the registries with each other, and unless an index
  was adopted the first one sets the measure: a run reports whatever that registry served behind
  its create (`ContainerRuns.FirstRegistryDecides`). A registry that serves something else later
  on ends the run there (`DisagreementStops`), but with a single registry an index that somebody
  put in between is reported as this release's (`FirstRegistryIsBelieved`).
* `compareVersions` of `scripts/channel-state.ts:34-66` is called a semver ordering. On the
  versions `parseVersion` accepts it is the order of section 11 of SemVer 2.0.0, but
  `scripts/channel-push.ts:121` accepts every `X.Y.Z-[0-9A-Za-z.-]+`. `OrderLaws.LinearExactly`
  says on which sets it is an order at all: no two versions first part at two spellings of one
  number, and no three at two numbers and something between them in code units.
  `ChannelTap.ComesBackExactly` says that exactly then no run of unforced pushes brings a channel
  back to a descriptor it had left; 1.0.0-9, 1.0.0-10 and 1.0.0-1a do so to the Homebrew tap and
  the Scoop bucket, and so do 1.0.0-1 and 1.0.0-01 (`TapAndBucketRunInACircle`). The
  release-asset probe, which is not part of the model, stops a run whose release it finds marked
  as a prerelease; these runs are those it lets through.
* `findOwningRootProcess` (`scripts/dev-preflight-utils.ts:136-145`) keeps no record of where it
  has been. `ProcessRoots.ClimbEndsExactly` says when it returns: if and only if it comes past no
  process that is its own ancestor, wherever else the table has a cycle. The row with pid 5 and
  parent 5 is such a table (`OwnParentNeverEnds`), and the climb from its child does not return
  either (`ChildOfOwnParentNeverEnds`). What is proved about the results asks for that condition
  of the processes climbed from, and of no others; only the children-first order of
  `TreeIsChildrenFirst` asks for a table without cycles.
* `bumpChangelog` takes the note out wherever it first stands (`scripts/version-bump.ts:229-230`).
  `ChangelogRelease.BumpMovesUnreleased` says what it moves then, and
  `ChangelogEffect.BumpMovesExactly` that this is all the changelog held if and only if the one
  line that loses the note does the same without it: it is read alike, or it has no effect where
  it stands. `ChangelogLoss.EntryIsLost` is an accepted bump that loses an entry. A heading that is neither
  `## Unreleased` nor a dated release is outside the changelog's contract, `HeadingContract`.

## Reading the model

* Runtime: a step is one outside call, one settlement of something awaited, or one promise
  job. Any ready job may run, so the results hold for more orders than an engine can produce;
  `Fifo` singles out the order of section 9.5 of ECMA-262 by the ticket each job was queued
  under, with settlements on an empty queue; the runs that overlap are of this kind. `InOrder`
  is wider: a startup goes on after its await as soon as the jobs queued before it have run.
  `Following(k)` is a call that returned the `starting` promise.
* Containers: an index is its ordered list of manifest digests and is content-addressed; what
  a manifest is (platform, labels) is a function of its digest. A run may die after any tag
  write; `Effect` keeps which references it got to write. Others may change the registries at
  every moment between two steps of a run, as the function `Others` says.
* Dependency search: previews are a deterministic oracle.
* Channels: a blob is named by its content, so the compare-and-swap compares contents. A read
  may answer nothing although a file is there.
* Processes: whether a command line is marked as a dev process is a predicate `dev`.
* Numbers are unbounded, and strings are sequences of UTF-16 code units.

## Model

| member | source | states |
|---|---|---|
| `RuntimeSafety.StepKeepsInv` | server/createRuntime.ts:114-264 | Every allowed step keeps the link between `starting`, `closing`, `address`, `handle`, `stopMergePoller` and the one startup or shutdown that owns them. |
| `RuntimeSafety.GuardedRunsNeverOverlap` | server/createRuntime.ts:114-264 | In every interleaving of any number of calls in which each step meets the guard there is at most one `runStart` in flight, and none while a shutdown runs that is not waiting for it. |
| `RuntimeSafety.GuardIsExact` | server/createRuntime.ts:114-131 | From a state of the invariant a step leads to states from which overlap cannot be reached by guarded steps if and only if it meets the guard. |
| `RuntimeSafety.LooseCallOverlaps` | server/createRuntime.ts:115-129 | Wherever a `start()` has left an old fence while `starting` is clear, a `close()` called there is started upon: the run is constructed. |
| `RuntimeSafety.UnguardedStepOverlaps` | server/createRuntime.ts:114-131 | Every step that breaks the guard opens a run to an overlap. |
| `RuntimeOrder.SmoothRunsNeverOverlap` | server/createRuntime.ts:114-264 | In job order, with second drains that succeed and startups that fail no earlier than at their first await, no run overlaps, whatever the calls; what is awaited may be settled already when the await is reached, or settle at any time after. |
| `RuntimeOrder.FifoRunsAreOrdered` | server/createRuntime.ts:114-264 | The runs whose settlements wait for an empty job queue are among those. |
| `RuntimeOrder.NoneIsLeft` | server/createRuntime.ts:115-129 | On such runs every `start()` that has left a fence has resumed before the callback that clears `starting` runs. |
| `RuntimeOutcomes.EagerFailureOverlaps` | server/createRuntime.ts:114-163 | A first-in-first-out run that overlaps although every drain succeeds and origin and host are accepted every time: a startup cannot make its storage directories while a second `start()` is leaving the same fence. |
| `RuntimeOutcomes.FailedDrainOverlaps` | server/createRuntime.ts:206-261 | A first-in-first-out run with no early startup failure, origin and host accepted every time, that overlaps because a failed drain cleared `closing`. |
| `RuntimeOutcomes.FulfilledCloseIsClean` | server/createRuntime.ts:206-261 | On guarded runs, once a `close()` has fulfilled and no newer `start()` replaced it, no listener, poller, timer or database handle is left. |
| `RuntimeOutcomes.QuietIsClean` | server/createRuntime.ts:134-255 | Without an address and without a startup in flight nothing is held. |
| `RuntimeOutcomes.LastDrainCleansUp` | server/createRuntime.ts:209-255 | The step on which a shutdown body returns leaves nothing behind, even when the close came in the middle of a listen. |
| `RuntimeOutcomes.FailedStartupCleansUp` | server/createRuntime.ts:159-191 | A settled startup sequence goes on to listen if and only if it succeeded and the host is allowed; otherwise no timer, no database handle and no listener of its own is left. |
| `RuntimeOutcomes.FailedListenCleansUp` | server/createRuntime.ts:177-191 | So does a startup that fails to bind, on the port asked for or on the fallback. |
| `RuntimeOutcomes.CloseFulfilsByLastDrain` | server/createRuntime.ts:234-261 | On every run, guarded or not, a `close()` fulfils if and only if its second drain succeeded. |
| `RuntimeOutcomes.RejectedCloseKeepsHoldings` | server/createRuntime.ts:234-261 | On guarded runs, from its first drain to its rejection, a failing shutdown gives up neither handle, address, timer nor database. |
| `RuntimeLiveness.StepDecreases` | server/createRuntime.ts:114-264 | Every step that is not an outside call lowers one measure over all promises. |
| `RuntimeLiveness.UnsettledCanMove` | server/createRuntime.ts:114-264 | While any promise handed out is unsettled some step is enabled: the graph of who waits on whom has no cycle. |
| `RuntimeLiveness.EveryCallSettles` | server/createRuntime.ts:114-264 | After any run at all, once nobody calls any more the steps left are bounded, and when none is left every call has settled. |
| `Runtime.LoopTroopRuntime.Start` | server/createRuntime.ts:114-131 | `start()` up to its first await, on the closure variables, is the step of the transition system; the invariant is kept under the guard. |
| `Runtime.LoopTroopRuntime.FenceSettled` | server/createRuntime.ts:116 | The fence has settled: one job on the way to the checks behind it; the invariant is kept under the guard. |
| `Runtime.LoopTroopRuntime.PastFence` | server/createRuntime.ts:116-130 | The re-check, the address and the new generation behind the fence, as the step decides them. |
| `Runtime.LoopTroopRuntime.FenceResumed` | server/createRuntime.ts:116-130 | A fenced call resumes: the step of the transition system; the invariant is kept under the guard. |
| `Runtime.LoopTroopRuntime.TeardownStartedResources` | server/createRuntime.ts:134-138 | Timer, project cache and database go; the handle stays. |
| `Runtime.LoopTroopRuntime.RunStart` | server/createRuntime.ts:140-163 | `runStart()` up to its first await. |
| `Runtime.LoopTroopRuntime.SettleRunStart` | server/createRuntime.ts:129-194 | `runStart()` returns or throws and queues the `finally` callback. |
| `Runtime.LoopTroopRuntime.FailRunStart` | server/createRuntime.ts:188-191 | The catch of `runStart()`: the teardown, then the rejection. |
| `Runtime.LoopTroopRuntime.ContinueRunStart` | server/createRuntime.ts:166-175 | Behind the startup sequence: the cleanup timer, then the host check. |
| `Runtime.LoopTroopRuntime.ListenOn` | server/createRuntime.ts:177-185 | A bind, on the port asked for or on port 0. |
| `Runtime.LoopTroopRuntime.StartupSettled` | server/createRuntime.ts:159-191 | The startup sequence settles: the timer, the host check and the bind, or the teardown; the invariant is kept under the guard. |
| `Runtime.LoopTroopRuntime.ListenSettled` | server/createRuntime.ts:177-194 | A bind settles: address and poller, the fallback port, or the teardown; the invariant is kept under the guard. |
| `Runtime.LoopTroopRuntime.FinallyCallback` | server/createRuntime.ts:129 | The callback that clears `starting`; the invariant is kept under the guard. |
| `Runtime.LoopTroopRuntime.StartingSettles` | server/createRuntime.ts:129-130 | The `starting` promise settles and wakes the shutdowns that wait on it; the invariant is kept under the guard. |
| `Runtime.LoopTroopRuntime.Close` | server/createRuntime.ts:206-214 | `close()` up to its first await; the invariant is kept under the guard. |
| `Runtime.LoopTroopRuntime.ShutdownHops` | server/createRuntime.ts:209 | The absorbed rejection or result of `starting`, one job before the shutdown goes on; the invariant is kept under the guard. |
| `Runtime.LoopTroopRuntime.Shutdown` | server/createRuntime.ts:210-237 | The shutdown behind its wait on `starting`: the server, the poller and the first drain; the invariant is kept under the guard. |
| `Runtime.LoopTroopRuntime.DrainSettled` | server/createRuntime.ts:235-254 | A drain settles; after the second one the final teardown or the rejection; the invariant is kept under the guard. |
| `Runtime.LoopTroopRuntime.PollerHasStopped` | server/createRuntime.ts:240 | The poller has stopped; the server is awaited next; the invariant is kept under the guard. |
| `Runtime.LoopTroopRuntime.ServerHasClosed` | server/createRuntime.ts:241-246 | The server has closed; the second drain begins; the invariant is kept under the guard. |
| `Runtime.LoopTroopRuntime.CatchCallback` | server/createRuntime.ts:256-261 | A failed shutdown clears `closing` so that the next call retries; the invariant is kept under the guard. |
| `ContainerTags.PlanPartitions` | scripts/container-tags.ts:61-85 | `tags` behind the version tag and `mustNotMove` partition {latest, next, series}, each exactly once. |
| `ContainerTags.PlanCarries` | scripts/container-tags.ts:61-85 | Only a stable release carries `latest` and its series; `next` follows the dist-tag. |
| `ContainerTags.RestrictPartitions` | scripts/container-tags.ts:102-114 | Cutting the plan down keeps the partition, keeps exactly the named tags and refuses any the plan did not have. |
| `ContainerTags.BestIsGreatest` | scripts/container-tags.ts:140-145 | The reduction finds a greatest patch of the series. |
| `ContainerTags.SeriesIsNewest` | scripts/container-tags.ts:139-146 | The series belongs to a stable version if and only if it is the newest published one in it. |
| `ContainerTags.AuthorityIsUnique` | scripts/container-tags.ts:129-148 | For one set of npm facts no floating tag is authoritative for two versions. |
| `ContainerManifest.ParseIndex` | scripts/container-tags.ts:223-239 | The platform manifests of an index, in order, without the attestations. |
| `ContainerManifest.ManifestRun.SurveyImages` | scripts/container-manifest.ts:116-144 | The loop over the registries returns the indexes in image order or the first error. |
| `ContainerManifest.AllOurs` | scripts/container-manifest.ts:233-256 | Every architecture is checked, not just the first: true if and only if all labels are this release's. |
| `ContainerManifest.ManifestRun.Choose` | scripts/container-manifest.ts:206-262 | Agreement, first publish, re-tag or adoption: the index to write or why the run stops. |
| `ContainerManifest.ManifestRun.Snapshot` | scripts/container-manifest.ts:267-279 | The snapshot has every reference that must not move, with what it serves. |
| `ContainerManifest.ManifestRun.CreateIn` | scripts/container-manifest.ts:291-313 | The tags of one registry, or the prefix of them that a dying run got to. |
| `ContainerManifest.ManifestRun.Create` | scripts/container-manifest.ts:290-319 | The loop over the registries, killed after any number of tag writes, with the digest read behind each create and the stop when it is not the one expected, whatever others write before and after each create. |
| `ContainerManifest.ManifestRun.CreateNext` | scripts/container-manifest.ts:291-318 | One round: the create in one registry, cut short by a death, and the digest behind it. |
| `ContainerManifest.ManifestRun.ReadOne` | scripts/container-manifest.ts:308-318 | The digest has to be there and to be the one expected; the first one read is expected from then on. |
| `ContainerManifest.ManifestRun.ReadBack` | scripts/container-manifest.ts:324-333 | True if and only if every planned tag in every registry serves the index. |
| `ContainerManifest.ManifestRun.Unmoved` | scripts/container-manifest.ts:335-350 | True if and only if every reference of the snapshot is where it was. |
| `ContainerManifest.ManifestRun.Carries` | scripts/container-manifest.ts:355-367 | True if and only if what the tag serves is an index with a manifest for both required platforms. |
| `ContainerManifest.ManifestRun.Close` | scripts/container-manifest.ts:321-367 | The three closing checks, each on what the registries serve when it is made. |
| `ContainerManifest.PlatformDigest` | scripts/container-tags.ts:321-325 | A digest is found if and only if the index lists a manifest for that platform, and it is one of those. |
| `ContainerManifest.ManifestRun.Publish` | scripts/container-manifest.ts:264-367 | From the snapshot to the closing checks: the registries it leaves and how it ends, whatever others write at every moment in between. |
| `ContainerManifest.ManifestRun.Perform` | scripts/container-manifest.ts:206-367 | A whole run among others, from the survey on. |
| `ContainerManifest.WriteAllIsWritten` | scripts/container-manifest.ts:291-319 | One write after the other is the map with those references on the index. |
| `ContainerHistory.CrashIsEffect` | scripts/container-manifest.ts:291-319 | Every prefix of a run's writes is one of the effects the histories range over. |
| `ContainerHistory.DecisionKeepsManifests` | scripts/container-manifest.ts:206-262 | The index a run decides on has the platform manifests every registry already serves. |
| `ContainerHistory.VersionsAreImmutable` | scripts/container-manifest.ts:206-319 | No sequence of runs, whatever their builds, labels and points of death, changes the manifests behind a version tag that exists. |
| `ContainerHistory.RegistriesAgree` | scripts/container-manifest.ts:215-219 | However often a release is run and killed, all registries that have the tag serve the same manifests. |
| `ContainerHistory.IndexIsStable` | scripts/container-manifest.ts:295-303 | With the fixed platform order the index itself, and so its digest, never changes. |
| `ContainerHistory.RepairConverges` | scripts/container-manifest.ts:206-367 | After any number of killed runs one complete run by the release's own images puts every planned tag of every registry on one index and passes its checks. |
| `ContainerHistory.CompleteRunPasses` | scripts/container-manifest.ts:321-367 | A run that writes everything and meets nobody else passes its own checks if and only if its index carries both platforms. |
| `ContainerHistory.ChosenCarriesBoth` | scripts/container-manifest.ts:206-262 | The index of any run but a first publish carries both platforms. |
| `ContainerRuns.SucceedsExactly` | scripts/container-manifest.ts:264-367 | Whatever others write at any moment: a run ends in success with an index if and only if it survives every write, every registry served exactly that index behind its create, it is the adopted one if one was, and the three closing checks pass. |
| `ContainerRuns.FirstRegistryDecides` | scripts/container-manifest.ts:311-313 | What a successful run reports is the adopted index, or what the first registry served behind its create. |
| `ContainerRuns.DisagreementStops` | scripts/container-manifest.ts:308-318 | The first registry that serves something else behind its create ends the run, and no later one is written. |
| `ContainerRuns.QuietRunEnds` | scripts/container-manifest.ts:264-350 | With nobody else writing before the checks a run that dies leaves exactly a prefix of its writes, and any other all of them. |
| `ContainerRuns.SilentRunIsEffect` | scripts/container-manifest.ts:206-367 | A run on its own is an effect of the histories, and it succeeds if and only if it lives through its writes and its index carries both platforms. |
| `ContainerRuns.RepairEndsInSuccess` | scripts/container-manifest.ts:206-367 | After any number of killed runs one more on its own that lives through its writes ends in success. |
| `ContainerRuns.FirstRegistryIsBelieved` | scripts/container-manifest.ts:311-313 | With one registry and nothing adopted, an index that somebody puts on the planned tags before the digest is read is reported as published. |
| `ContainerHistory.KilledRunWritesVersionFirst` | scripts/container-manifest.ts:291-319 | However early a run dies, a registry it has written a floating tag to has the version tag on the same index. |
| `ContainerHistory.RetagKeepsIndexIff` | scripts/container-manifest.ts:229-231 | Without the fixed order a re-tag keeps the index if and only if it lists the manifests as published. |
| `ContainerHistory.SwappedRetagJams` | scripts/container-manifest.ts:215-231 | A re-tag in another order that dies between two registries leaves them on different indexes, and every later run is refused. |
| `ContainerHistory.SwappedRetagHappens` | scripts/container-manifest.ts:215-231 | Two registries, two platforms and one re-tag that lists them the other way round and dies after the first registry: the next run is refused. |
| `ContainerHistory.RunKeepsTheRest` | scripts/container-manifest.ts:267-350 | A run touches no reference it did not plan, least of all the floating tags it must not move. |
| `ContainerHistory.RepairsPlaceFloatingTags` | scripts/container-manifest.ts:267-350 | In any order, finished or killed, authoritative repairs leave each floating tag untouched or on the index of a version it belongs to. |
| `DependencyUpdates.FindCompatible` | scripts/dev-maintenance.ts:1613-1679 | A non-error result splits the candidates exactly into accepted and held, the accepted set previews cleanly, every peer-incompatible one still conflicts with it, the final error branch is dead, and at most n(n+1)/2 + 2 previews ran. |
| `DependencyUpdates.Search` | scripts/dev-maintenance.ts:1629-1657 | The rounds end with the piles of the specification, one preview for each candidate of each round. |
| `DependencyUpdates.TryEach` | scripts/dev-maintenance.ts:1637-1655 | One round: accepted, held, pending or a fatal preview, in order. |
| `DependencyUpdates.RoundSplits` | scripts/dev-maintenance.ts:1637-1656 | No candidate is lost or doubled by a round. |
| `DependencyUpdates.RoundShrinks` | scripts/dev-maintenance.ts:1634-1656 | A round that makes progress leaves fewer pending: the termination measure. |
| `DependencyUpdates.IdleRoundConflicts` | scripts/dev-maintenance.ts:1634-1657 | After a round that accepts nothing every pending candidate conflicts with the accepted set, for the reason given. |
| `DependencyUpdates.SettleIsSound` | scripts/dev-maintenance.ts:1629-1657 | At the fixpoint: the accepted set resolves, the pending ones conflict with it, the held ones were refused by policy on top of a part of it. |
| `ReleaseAge.ChooseAged` | scripts/dev-maintenance.ts:1041-1127 | The selector with its loop over the publish times meets the specification. |
| `ReleaseAge.ScanTimes` | scripts/dev-maintenance.ts:1084-1113 | The loop over the publish times computes the scan. |
| `ReleaseAge.ScanFindsGreatest` | scripts/dev-maintenance.ts:1089-1107 | The scan keeps a greatest eligible stable version above the current one, and one unless none is eligible. |
| `ReleaseAge.ScanFindsNext` | scripts/dev-maintenance.ts:1109-1112 | `nextEligibleAt` is the earliest time at which a candidate not eligible yet becomes so. |
| `ReleaseAge.TargetIsGreatestEligible` | scripts/dev-maintenance.ts:1041-1179 | With the gate on a newer target is chosen if and only if `evaluatePackageVersionReleaseAge` calls one eligible, and it is a greatest such. |
| `ReleaseAge.ChoiceNeverGoesDown` | scripts/dev-maintenance.ts:1041-1127 | As time goes on with the same metadata the choice never goes down and is never withdrawn. |
| `ReleaseAge.ChoiceHoldsUntilNext` | scripts/dev-maintenance.ts:1109-1126 | Strictly before the announced date the whole answer stays as it is, that date included. |
| `ReleaseAge.NextDateBringsAVersion` | scripts/dev-maintenance.ts:1109-1179 | At the announced date the eligible set strictly grows. |
| `ReleaseAge.SourceProposesStable` | scripts/dev-maintenance.ts:901-912 | With the source's own version pattern, whatever `Date.parse` does, what the gate proposes is a stable `[v]X.Y.Z[+build]` above the current version, never a prerelease. |
| `Versions.ParseShow` | scripts/version-bump.ts:49-89 | Reading a printed release back gives that release. |
| `Versions.ParseAcceptsExactly` | scripts/version-bump.ts:33-89 | `parseVersion` accepts a string if and only if it is the print of a release: no leading zero, no `v`, no other prerelease, no candidate numbered from zero. |
| `Versions.CompareCores` | scripts/channel-state.ts:44-47 | The loop over the core fields: the first that differs decides. |
| `Versions.ComparePrereleases` | scripts/channel-state.ts:53-65 | The loop over the prerelease identifiers: the first that differs decides, and a prefix comes first. |
| `Versions.CompareChannelVersions` | scripts/channel-state.ts:35-66 | The two indexed loops compute the channel order. |
| `VersionOrder.OrdersAgree` | scripts/channel-state.ts:35-66 | The two independent comparisons agree in sign on every pair of releases. |
| `VersionOrder.ParsedVersionsAgree` | scripts/version-bump.ts:98-109 | `compareVersions` of the bump succeeds if and only if both strings are releases, and then has the sign of the channel order. |
| `VersionOrder.LeadingVIsDropped` | scripts/channel-state.ts:37 | One leading `v` is not looked at. |
| `VersionOrder.ChannelOrderIsReflexive` | scripts/channel-state.ts:35-66 | Every string at all compares equal to itself. |
| `VersionOrder.ChannelOrderIsTotal` | scripts/channel-state.ts:35-66 | On strings `parseVersion` accepts the order is antisymmetric, total, transitive, and zero only on equal strings. |
| `VersionOrder.CandidateBelowStable` | scripts/channel-state.ts:49-51 | Every candidate is below its stable release (section 11 of SemVer 2.0.0). |
| `VersionOrder.BumpMovesForward` | scripts/version-bump.ts:123-133 | `assertForwardBump` passes if and only if both are releases and the new one is later. |
| `VersionOrder.BumpsOnlyMoveForward` | scripts/version-bump.ts:116-133 | In any chain of bumps every later version is strictly above every earlier one. |
| `VersionOrder.ChannelOrderHasACycle` | scripts/channel-state.ts:53-63 | Outside the releases: 1.0.0-9 < 1.0.0-10 < 1.0.0-1a < 1.0.0-9. |
| `OrderLaws.LinearExactly` | scripts/channel-state.ts:34-66 | On any set of strings the channel order is antisymmetric and transitive if and only if no two of them first part at two spellings of one number and no three part at one place with a non-number between two numbers in code units. |
| `OrderLaws.StrictExactly` | scripts/channel-state.ts:34-66 | It tells different strings apart as well if and only if in addition no two agree in their core values and in the text up to a second dash. |
| `OrderLaws.ReleasesAreRegular` | scripts/channel-state.ts:34-66 | The versions `parseVersion` accepts meet that condition. |
| `OrderLaws.ClashIsMutual` | scripts/channel-state.ts:53-65 | Two spellings of one number: each of the two versions is above the other. |
| `OrderLaws.TangleIsACircle` | scripts/channel-state.ts:53-65 | A non-number between two numbers: the three versions go round in a circle. |
| `VersionOrder.SecondDashIsDropped` | scripts/channel-state.ts:36-39 | Whatever follows a second dash compares equal to nothing there. |
| `Changelog.ParseChangelog` | scripts/changelog-release-notes.ts:36-79 | The loop over the lines, with its current release and section, computes the fold of the line steps. |
| `Changelog.RunRenames` | scripts/changelog-release-notes.ts:44-54 | The heading of a release decides its name and date and nothing else. |
| `Changelog.RunFrame` | scripts/changelog-release-notes.ts:41-54 | A finished release is never changed by later lines. |
| `ChangelogBump.HeadingReadsBack` | scripts/version-bump.ts:244-245 | The heading a bump writes is read back by the parser as that version and date. |
| `ChangelogBump.ReleasesAreHeadings` | scripts/changelog-release-notes.ts:28-54 | Every line the parser takes for a release is a heading that ends the section before it in the bump. |
| `ChangelogBump.DatedReleasesAnnounce` | scripts/version-bump.ts:217-220 | Every dated release heading of a version makes the bump refuse that version. |
| `ChangelogBump.UnreleasedIsARelease` | scripts/version-bump.ts:166 | The heading the bump counts is an undated `Unreleased` to the parser. |
| `ChangelogRelease.BumpMovesUnreleased` | scripts/version-bump.ts:201-254 | Parsing the rewritten lines gives the releases of the changelog without its note, with `Unreleased` replaced by an empty one and the new version with all it held; every other release is the same. |
| `ChangelogEffect.BumpMovesExactly` | scripts/version-bump.ts:201-254 | It gives that of the changelog as it stood if and only if the one line that loses the note is read alike without it, or has no effect where it stands: no section is open there, or it is neither heading nor entry and no rule that cuts off entries behind it. |
| `ChangelogEffect.LineDecides` | scripts/changelog-release-notes.ts:41-76 | Two lines in one place give the same releases if and only if they are the same line, or neither is a heading and no section is open, or neither is an entry and only a rule in front of further entries tells them apart. |
| `ChangelogEffect.DraftEnds` | scripts/changelog-release-notes.ts:41-76 | A release that is being read ends as its own sections, with the entries still ahead, and what the lines behind hold whoever is being read. |
| `ChangelogLoss.EntryIsLost` | scripts/version-bump.ts:229-230 | An accepted bump that does lose an entry: one whose text is the note's. |
| `ChangelogContract.NotesAgree` | scripts/version-bump.ts:189-247 | Under the heading contract the notes of the whole file are the notes the bump rendered, and they render, wherever the note stands. |
| `ChangelogContract.SectionEndsAtHeading` | scripts/changelog-release-notes.ts:41-76 | What stands behind the next release heading does not reach a section, and the same sections are read under any other heading. |
| `ChangelogRepeat.BumpKeepsContract` | scripts/version-bump.ts:201-254 | A bump leaves a changelog that meets the contract with exactly one `Unreleased`, whose note stands alone. |
| `ChangelogRepeat.NothingLeftToRelease` | scripts/version-bump.ts:229-247 | A changelog just bumped refuses the next bump, whatever its version. |
| `ChangelogRepeat.BumpAnnouncesVersion` | scripts/version-bump.ts:217-220 | After a bump the same version is refused by name. |
| `ChangelogText.BumpedTextReads` | scripts/version-bump.ts:201-254 | On the text of CHANGELOG.md, split at its newlines and joined again: what the bump moves, and by the same condition exactly when that is all the text held. |
| `ChangelogText.BumpedTextKeepsTheRest` | scripts/version-bump.ts:249-253 | Every character in front of the `Unreleased` heading and from the next heading on is kept; between them stand the fresh section and the text that was checked. |
| `ChangelogText.BumpedTextNotes` | scripts/version-bump.ts:189-254 | On the text: the published notes are the checked notes. |
| `ChangelogText.BumpedTextIsReady` | scripts/version-bump.ts:201-254 | On the text: ready for the next bump, and refusing one until something is merged. |
| `ChangelogNotes.ParseKeepsEntries` | scripts/changelog-release-notes.ts:31-75 | Whatever the text, every entry the parser keeps is one line without white space around it. |
| `ChangelogNotes.NotesReadBack` | scripts/changelog-release-notes.ts:112 | Read line by line the printed notes are the section's entries, in order and nothing else. |
| `ChangelogNotes.PublishedNotesAreTheEntries` | scripts/changelog-release-notes.ts:101-118 | The notes of a version are the entries of its `Release Highlights`, or of its `Summary` when it has none of those. |
| `PackageManifests.SkipLines` | scripts/package-manifests.ts:619-630 | A reader anchored at line starts passes over lines whose first word cannot be its key. |
| `ManifestReadBack.VersionIsInTheUrl` | scripts/package-manifests.ts:583-586 | The URL `checkDescriptorUrl` accepts gives back its version, whatever the prerelease, although `looptroop-` occurs in it more than once. |
| `ManifestReadBack.HomebrewReadsBack` | scripts/package-manifests.ts:99-138 | Reading back a rendered formula gives version, URL and hash for every input whose URL is accepted; the version comes from the URL alone. |
| `ManifestReadBack.WingetReadsBack` | scripts/package-manifests.ts:313-343 | Reading back a rendered installer manifest gives version, URL and hash, the hash through upper and lower case. |
| `PackageManifests.LowerOfUpper` | scripts/package-manifests.ts:340 | A hash written in upper case and read in lower case is the hash. |
| `ChannelState.DecideChannelWrite` | scripts/channel-state.ts:141-193 | The decision, with its list of differences, as specified. |
| `ChannelState.WritesOnlyForward` | scripts/channel-state.ts:141-198 | A write happens if and only if the version is newer, or the run is forced and the bytes of the same version differ; `noop` if and only if nothing differs. |
| `ChannelState.WrittenFormulaIsNoop` | scripts/channel-state.ts:141-193 | Deciding again on the formula just written is `noop`, with and without force. |
| `ChannelPush.Contents.Write` | scripts/channel-push.ts:376-384 | The contents API: with a blob it replaces that blob, without one it only creates. |
| `ChannelPush.Pusher.ReadAndDecide` | scripts/channel-push.ts:331-370 | Read, decide, and stop or go on to the write. |
| `ChannelPush.Pusher.PutDescriptor` | scripts/channel-push.ts:372-384 | The compare-and-swap write and its refusal. |
| `ChannelPush.InitialIsInv` | scripts/channel-push.ts:341-347 | Before anybody has read the invariant holds. |
| `ChannelPush.ActKeepsInv` | scripts/channel-push.ts:344-384 | A pusher about to write decided to, on what it saw, after every step of anybody; a file that cannot be read is never among what was decided on. |
| `ChannelPush.ActMovesForward` | scripts/channel-push.ts:344-384 | On versions the order is linear on, one event changes the file only to a later version, or to other bytes of the same one by a forced run. |
| `ChannelPush.VersionNeverFalls` | scripts/channel-push.ts:331-384 | Under every interleaving of any number of pushers, forced or not, with reads that may answer nothing and files nobody can read, the published version never falls below an earlier one. |
| `ChannelPush.FileOnlyRises` | scripts/channel-push.ts:331-384 | As long as no forced run writes, the file changes only to strictly later versions. |
| `ChannelPush.UnreadableStays` | scripts/channel-state.ts:158-163 | A file without a readable version is never replaced, whoever pushes. |
| `ChannelPush.SameVersionSameBytes` | scripts/channel-push.ts:331-384 | Two moments that show versions the order does not tell apart show the same file unless a forced run wrote in between. |
| `ChannelPush.OverwrittenIsGone` | scripts/channel-push.ts:372-384 | A file that an unforced run replaced never comes back, nor does its version, whatever is forced later. |
| `ChannelPush.SlowPusherLoses` | scripts/channel-push.ts:376-384 | Of the pushers that read the same file only the first unforced one to write gets through. |
| `ChannelTap.AcceptedIsPushable` | scripts/channel-push.ts:121-130 | What the script checks of its arguments makes every push, of any version it accepts, one these results cover, on any channel that reads back what the script writes. |
| `ChannelTap.TapReadsBack` | scripts/package-manifests.ts:99-138 | The Homebrew tap is such a channel. |
| `ChannelTap.ScoopReadsBack` | scripts/package-manifests.ts:152-182 | Reading back a rendered Scoop manifest gives version, URL and hash, for any JSON printer and reader that fit together. |
| `ChannelTap.BucketReadsBack` | scripts/package-manifests.ts:605-617 | So the Scoop bucket is one as well. |
| `ChannelTap.ComesBackExactly` | scripts/channel-push.ts:331-384 | Unforced pushes of a set of accepted versions, with accepted URLs and hashes, can bring such a channel back to a descriptor it had left if and only if two of the versions clash or three of them tangle. |
| `ChannelTap.RegularNeverComesBack` | scripts/channel-push.ts:331-384 | No run of unforced pushes of versions without clash or tangle ever comes back. |
| `ChannelTap.LeadingZeroComesBack` | scripts/channel-state.ts:53-65 | 1.0.0-1 and 1.0.0-01: each push replaces the other. |
| `ChannelTap.ChannelRunsInACircle` | scripts/channel-state.ts:53-65 | 1.0.0-9, 1.0.0-10 and 1.0.0-1a: three pushes the script accepts, each an upgrade, bring the channel back to the descriptor it started from. |
| `ChannelTap.TapAndBucketRunInACircle` | scripts/channel-state.ts:53-65 | Both happen to the tap and to the bucket. |
| `ChannelTap.ReleasesNeverComeBack` | scripts/channel-push.ts:331-384 | Unforced pushes of the versions `parseVersion` accepts never bring a channel back. |
| `ProcessForest.BuildProcessGraph` | scripts/dev-preflight-utils.ts:34-46 | The two maps answer every pid as the table does: the last row of a pid, the children in table order. |
| `ProcessForest.TreeCollector.Visit` | scripts/dev-preflight-utils.ts:154-166 | The recursive visit over `visited` and `ordered`, on every table, cyclic ones too, is the specified walk. |
| `ProcessForest.TreeCollector.VisitEach` | scripts/dev-preflight-utils.ts:158-160 | The loop over the children, in table order. |
| `ProcessForest.CollectProcessTree` | scripts/dev-preflight-utils.ts:150-170 | The collected tree is the walk from nothing visited. |
| `ProcessTrees.TreeIsReachable` | scripts/dev-preflight-utils.ts:150-170 | On every table the tree holds exactly the known processes reachable from the root, each once. |
| `ProcessTrees.TreeIsChildrenFirst` | scripts/dev-preflight-utils.ts:150-170 | On an acyclic table every child comes before its parent. |
| `ProcessRoots.FindOwningRootProcess` | scripts/dev-preflight-utils.ts:128-148 | From a process without a cycle above it, whatever else the table holds, the climb returns the topmost marked process of the chain, or none. |
| `ProcessRoots.Parent` | scripts/dev-preflight-utils.ts:137-138 | Without a cycle above, one step up ends exactly where the chain does. |
| `ProcessRoots.OwningRootIsTopmost` | scripts/dev-preflight-utils.ts:128-148 | On every table there is a topmost marked process of the chain if and only if a marked process is above; it is marked, above the process and above every other marked one. |
| `ProcessRoots.ChainIsTheTreesAbove` | scripts/dev-preflight-utils.ts:128-170 | The duality, on cyclic tables too: a process is on the chain upward if and only if its tree holds the start. |
| `ProcessRoots.ClimbEndsExactly` | scripts/dev-preflight-utils.ts:136-145 | On every table and from every process the loop reaches its exit if and only if it comes past no process that is its own ancestor. |
| `ProcessRoots.ClimbEndsWithoutCycleAbove` | scripts/dev-preflight-utils.ts:136-145 | With unique pids: if and only if no process above is below itself, wherever else a cycle lies. |
| `ProcessRoots.CycleNeverEnds` | scripts/dev-preflight-utils.ts:136-145 | A process that is its own ancestor keeps the climb going for ever. |
| `ProcessRoots.BelowACycleNeverEnds` | scripts/dev-preflight-utils.ts:136-145 | So it does from every process below it. |
| `ProcessRoots.OwnParentNeverEnds` | scripts/dev-preflight-utils.ts:136-145 | The row with pid 5 and parent 5: every step stands still. |
| `ProcessRoots.ChildOfOwnParentNeverEnds` | scripts/dev-preflight-utils.ts:136-145 | From its child, pid 6, no ancestor of its own, the loop never gets to its exit. |
| `Preflight.DecideDaemonProtection` | scripts/dev-preflight-utils.ts:250-291 | The pids a record protects, with a warning whenever the match was not positive. |
| `Preflight.UnverifiedIsProtected` | scripts/dev-preflight-utils.ts:250-291 | A daemon is protected if and only if it is alive and nothing proves it is another process. |
| `Preflight.CollectProtectedPids` | scripts/dev-preflight.ts:101-130 | Exactly this process, its ancestors, the protected daemons and their trees, as long as no process above this one is its own ancestor. |
| `Preflight.ProtectAncestors` | scripts/dev-preflight.ts:102-108 | The climb from this process collects its whole chain. |
| `Preflight.ProtectTree` | scripts/dev-preflight.ts:122-127 | One protected pid with its tree. |
| `Preflight.PickRoot` | scripts/dev-preflight.ts:459-465 | One row of the table: its owning root, unless it is this process, unmarked or protected. |
| `Preflight.FindStaleRoots` | scripts/dev-preflight.ts:458-466 | The stale-process loop and its map, as long as no marked row has a cycle above it. |
| `Preflight.StaleRootsAreThose` | scripts/dev-preflight.ts:458-466 | The map holds exactly the unprotected owning roots of the marked rows, none twice. |
| `Preflight.AncestorsAreSpared` | scripts/dev-preflight.ts:199-207 | The tree of a root that is not protected holds neither this process nor any of its ancestors. |
| `Preflight.SelfIsSpared` | scripts/dev-preflight.ts:455-470 | In particular this process. |
| `Preflight.LoopSparesAncestors` | scripts/dev-preflight.ts:455-470 | Whatever is marked, the stale-process loop signals neither this process nor any of its ancestors. |
| `Preflight.LoopReachesTheRest` | scripts/dev-preflight.ts:458-470 | Every other marked process is signalled unless its owning root is protected. |
| `Preflight.DaemonIsHitOnlyFromAbove` | scripts/dev-preflight.ts:110-127 | The trees of an unprotected root and a protected daemon meet if and only if the daemon is below the root; then all of the daemon's tree is in it. |
| `Preflight.AboveIsLinear` | scripts/dev-preflight-utils.ts:136-145 | With unique pids two processes above a third are one above the other. |
| `Preflight.ResolveProcessTreesToTerminate` | scripts/dev-preflight-utils.ts:172-201 | The loop over the occupants: roots by pid, unrelated ones in order. |
| `Preflight.NoneIsUnrelated` | scripts/dev-preflight-utils.ts:184-195 | No occupant is unrelated if and only if every known one has a marked process above it. |
| `Preflight.OccupantIsUnderItsRoot` | scripts/dev-preflight-utils.ts:188-194 | Terminating the root found for an occupant reaches the occupant. |
| `ContainerNotes.AcceptsExactly` | scripts/container-notes.ts:55-69 | A splice succeeds if and only if both markers are there in order or neither is, and what it returns. |
| `ContainerNotes.SpliceKeepsTheRest` | scripts/container-notes.ts:55-69 | Everything outside the block survives, up to trailing white space when appending and a final newline. |
| `ContainerNotes.LastWriterWins` | scripts/container-notes.ts:55-69 | splice(splice(b, x), y) = splice(b, y) for every accepted body and every block whose text is free of the closing marker; so splicing twice is splicing once. |
| `ContainerNotes.ReplaceableIff` | scripts/container-notes.ts:26-69 | The law holds for a block if and only if its text is free of the closing marker. |
| `ContainerNotes.PlainInputsAreReplaceable` | scripts/container-notes.ts:26-45 | Inputs without `<` give such a block. |
| `Ansi.StripUndoesRender` | shared/ansi.ts:30-56 | For any stream of plain text, OSC strings, whose bodies may hold escapes that neither introduce nor terminate, CSI sequences and two-character escapes, 7-bit or 8-bit, the four passes return exactly the plain text. |
| `Ansi.StripOnlyRemoves` | shared/ansi.ts:49-56 | On every input the result is a subsequence with no U+009B and no U+009D. |
| `Ansi.UnterminatedOscKeepsText` | shared/ansi.ts:26-47 | An unterminated OSC string loses its introducer and keeps its text. |
| `Ansi.StripIsNotIdempotent` | shared/ansi.ts:49-56 | Stripping twice is not stripping once: a concrete text. |
| `Ansi.StripKeepsExactly` | shared/ansi.ts:49-56 | A text comes through unchanged if and only if it has no U+009B, no U+009D and no escape before one of `@` to `_`. |
| `Ansi.StripTwiceExactly` | shared/ansi.ts:49-56 | Stripping twice is stripping once if and only if the first time left no escape before one of `@` to `_`. |
| `CliArgs.ParseArgs` | scripts/cli-args.ts:63-154 | The loop over the arguments computes the specified reading, error by error. |
| `CliArgs.TakeOption` | scripts/cli-args.ts:106-145 | One option in either spelling, with the tokens it uses. |
| `CliLines.PositionalsAreTheLines` | scripts/cli-args.ts:63-170 | A script gets certain positionals if and only if it asks for that many and some line of the schema prints as the arguments and says exactly those, in order, before and behind `--`. |
| `CliLines.Ask` | scripts/release-bump.ts:53-58 | A script's own two calls, the parse and the request for so many positionals, compute that answer. |
| `CliLines.WordsComeBack` | scripts/cli-args.ts:90-170 | Behind `--` any words at all, dash-led or not, come back as they were given. |
| `CliLines.BareWordsComeBack` | scripts/cli-args.ts:90-170 | Without `--` words come back if and only if none of them is dash-led. |
| `CliLines.ParseUndoesPrint` | scripts/cli-args.ts:63-154 | Parsing a printed line returns what it says. |
| `CliLines.AcceptedIffPrinted` | scripts/cli-args.ts:63-154 | A line is accepted with a result if and only if it is the print of items the schema has a place for, with that meaning: every token belongs to exactly one item. |
| `CliLines.AnswersAreTheLines` | scripts/cli-args.ts:148-153 | Switches, values, repeated values and positionals are the line's own, in order. |
| `CliLines.SpellingsAgree` | scripts/cli-args.ts:110-145 | `--n v` and `--n=v` agree anywhere when `v` is `-` or not dash-led; otherwise the first is refused. |
| `CliLines.NamelessSwitchIsUnreachable` | scripts/cli-args.ts:98-105 | No line sets a switch whose name is empty. |
| `ReleaseState.CompleteExactly` | scripts/release-state.ts:116-168 | Over all facts: `complete` if and only if every channel is done and the bytes were compared equal; `unverified` if and only if done and not compared. |
| `ReleaseState.NpmIsSkippedOnlyAfterAMatch` | scripts/release-state.ts:252-261 | An unfinished release goes on without the publish job only after a byte match under the right dist-tag. |
| `ReleaseState.FinishedIsNeverRepublished` | scripts/release-state.ts:131-168 | A finished release never proceeds. |
| `ReleaseState.PartialIsNeverAConflict` | scripts/release-state.ts:116-276 | From nothing by correct steps in any order, however often: never `conflict`, never `skip`, and it proceeds if and only if something is missing. |
| `ReleaseState.AttemptProgresses` | scripts/release-state.ts:229-276 | A run that resolves and dies after any number of its steps has done exactly that many missing ones. |
| `ReleaseState.ResumingCompletes` | scripts/release-state.ts:229-276 | Runs that resolve afresh and die anywhere reach `complete` if and only if they reached four steps in all. |
| `ReleaseState.LostDistTagIsAConflict` | scripts/release-state.ts:240-250 | A version on npm without its dist-tag stops every run that has the bytes. |
| `ReleaseState.OtherBytesConflictWhenCompared` | scripts/release-state.ts:207-216 | Other bytes are a conflict when they are compared, and not before. |

## Left out

- Runtime.LoopTroopRuntime.PastFence: startup work between awaits that cannot be seen here (settings, adapters, storage directories) is one outcome, `Boot`; `startMergePoller` is taken not to throw, and the poller's stop and the server's close to fulfil.
- Runtime.LoopTroopRuntime.Shutdown: `handle.close` throwing anything but `ERR_SERVER_NOT_RUNNING` is not modelled, nor are SSE clients and the commands being drained.
- ContainerManifest.ManifestRun.SurveyImages: registry errors other than "absent" and "not an index" end the run before any write in the source and are one outcome here; JSON and `docker` itself are not part of this model.
- ContainerManifest.ManifestRun.Perform: the reads of one loop (survey, snapshot, one closing check) see one state of the registries; others write between the loops and around each create, not between two tags of one create.
- ContainerManifest.ManifestRun.Create: the descriptors' platform is taken from the manifest they name, and one create call writes its tags one after the other.
- DependencyUpdates.FindCompatible: what a preview does (a temporary install) is the oracle; `summarizePeerResolutionFailure` is a parameter.
- ReleaseAge.ChooseAged: `Date.parse` is a parameter, times are integers, and the order of keys is the order given.
- Changelog.ParseChangelog: expressions are read within one line; a `\r` in the middle of a line is not a line end, and `\w` is the ASCII class.
- ChangelogBump.HeadingReadsBack: `^##\s+` is not followed over a line end, so a `##` alone on its line starts nothing but ends a section.
- ChangelogText.BumpedTextReads: `bumpLockfile` and `bumpManifest` are not part of this model.
- PackageManifests.SkipLines: a line starts after `\n` only.
- ManifestReadBack.HomebrewReadsBack: the Node major is a parameter without a line end; the nuspec is never pushed by the modelled script.
- ManifestReadBack.WingetReadsBack: the version and locale files of the three are not read back by anything and are not modelled.
- ChannelPush.Pusher.ReadAndDecide: the preflight and the release-asset probe run before the read and can only stop the script; the probes' answers are not modelled.
- ChannelTap.ScoopReadsBack: JSON printing and reading are parameters of which it is asked that a printed manifest is read back; the order of keys and the white space are the printer's.
- ProcessForest.BuildProcessGraph: parsing the output of `ps` is not modelled.
- Preflight.FindStaleRoots: path markers, signals and their timing, and the processes that appear between two listings are not modelled.
- Preflight.DecideDaemonProtection: reading daemon.json and matching a process against its token are parameters.
- ContainerNotes.AcceptsExactly: white space is the ECMAScript class; Unicode normalisation plays no part.
- CliArgs.ParseArgs: error texts are shortened; `requireNoPositional` is `RequirePositional` with zero.
- ReleaseState.PartialIsNeverAConflict: a build is taken to be reproducible from one run to the next; a build that is not is `OtherBytesConflictWhenCompared`.
- The XState ticket workflow, the council and the session manager are not part of this model, nor are the HTTP routes, the database and the front end.
- Chocolatey, AUR and WinGet submission, smoke scripts, audits, port inspection and WSL code: drivers around external tools.
- `resolveDevHostMode`, `scripts/dev-backend-liveness.ts`, `scripts/release-assets.ts`, `shared/aiQuestions.ts` and `shared/aiRetry.ts`: small decisions that would only add easy members.
- `requireReleaseAsset` and `classifyChocoPush`: one branch for each answer of an external service.
