/**
 Where a release stands: `scripts/release-state.ts`, with the gates `scripts/release-detect.ts` sets from it.
 */
module ReleaseState {
  import opened Wrappers
  import opened Text

  datatype Facts = Facts(
    version: string,
    versionChangedInPush: bool,
    targetSha: string,
    tagSha: Option<string>,
    releaseExists: bool,
    releaseIsDraft: bool,
    npmIntegrity: Option<string>,
    expectedIntegrity: Option<string>,
    expectedDistTag: string,
    npmDistTags: Option<map<string, string>>)

  datatype State = Skip | Fresh | ResumeNpm | ResumeGithub | Complete | Unverified | Conflict

  function DistTag(facts: Facts, tag: string): Option<string> {
    if facts.npmDistTags.Some? && tag in facts.npmDistTags.value then Some(facts.npmDistTags.value[tag]) else None
  }

  predicate HasCorrectDistTag(facts: Facts) {
    DistTag(facts, facts.expectedDistTag) == Some(facts.version)
  }

  predicate PrereleaseTookLatest(facts: Facts) {
    facts.expectedDistTag != "latest" && DistTag(facts, "latest") == Some(facts.version)
  }

  predicate TagOnTarget(facts: Facts) {
    facts.tagSha.Some? && Lower(facts.tagSha.value) == Lower(facts.targetSha)
  }

  function ResolveReleaseState(facts: Facts): State {
    var tagExists := facts.tagSha.Some?;
    var tagOnTarget := TagOnTarget(facts);
    var onNpm := facts.npmIntegrity.Some?;
    var bytesComparable := facts.expectedIntegrity.Some?;
    var integrityMatches := onNpm && bytesComparable && facts.npmIntegrity == facts.expectedIntegrity;
    var tagAndRelease := tagOnTarget && facts.releaseExists && !facts.releaseIsDraft;
    var distTagCorrect := HasCorrectDistTag(facts);
    var publishedCorrectly := onNpm && integrityMatches && distTagCorrect;
    if tagAndRelease && publishedCorrectly then Complete
    else if tagAndRelease && onNpm && distTagCorrect && !bytesComparable then Unverified
    else if !facts.versionChangedInPush then Skip
    else if tagExists && !tagOnTarget then Conflict
    else if onNpm && bytesComparable && !integrityMatches then Conflict
    else if PrereleaseTookLatest(facts) then Conflict
    else if !facts.releaseExists && !tagExists && !onNpm then Fresh
    else if onNpm && bytesComparable && !distTagCorrect then Conflict
    else if publishedCorrectly then ResumeGithub
    else ResumeNpm
  }

  /** `proceed` */
  predicate Proceeds(s: State) {
    s.Fresh? || s.ResumeNpm? || s.ResumeGithub?
  }

  /** `needs_npm` */
  predicate NeedsNpm(s: State) {
    s.Fresh? || s.ResumeNpm?
  }

  // ---- over every observation ---------------------------------------------------------------------

  /** Every channel is done, the bytes aside. */
  predicate AllChannelsDone(facts: Facts) {
    && TagOnTarget(facts) && facts.releaseExists && !facts.releaseIsDraft
    && facts.npmIntegrity.Some? && HasCorrectDistTag(facts)
  }

  /** `complete` is the conjunction of every channel with a comparison that was made. */
  lemma CompleteExactly(facts: Facts)
    ensures ResolveReleaseState(facts).Complete? <==>
      AllChannelsDone(facts) && facts.expectedIntegrity.Some? && facts.npmIntegrity == facts.expectedIntegrity
    ensures ResolveReleaseState(facts).Unverified? <==> AllChannelsDone(facts) && facts.expectedIntegrity.None?
  {
  }

  /** Publishing is left out of a run only when the registry's bytes have been compared, or when there is no run. */
  lemma NpmIsSkippedOnlyAfterAMatch(facts: Facts)
    ensures var s := ResolveReleaseState(facts);
      Proceeds(s) && !NeedsNpm(s) ==>
        && facts.expectedIntegrity.Some? && facts.npmIntegrity == facts.expectedIntegrity && HasCorrectDistTag(facts)
        && !AllChannelsDone(facts)
    ensures var s := ResolveReleaseState(facts);
      facts.versionChangedInPush && !AllChannelsDone(facts) ==> s.Conflict? || Proceeds(s)
  {
  }

  /** A finished release is never sent back to the publish job, whatever the push and the build say. */
  lemma FinishedIsNeverRepublished(facts: Facts)
    requires AllChannelsDone(facts)
    ensures !Proceeds(ResolveReleaseState(facts))
    ensures ResolveReleaseState(facts).Conflict? ==>
      facts.expectedIntegrity.Some? && facts.npmIntegrity != facts.expectedIntegrity
  {
  }

  // ---- a release under way ----------------------------------------------------------------------------

  datatype Release = Release(version: string, distTag: string, target: string, bytes: string)

  datatype Draft = NoRelease | IsDraft | IsPublished

  /** What the channels hold. `tags` are npm's dist-tags. */
  datatype World = World(release: Draft, tag: Option<string>, npm: Option<string>, tags: Option<map<string, string>>)

  datatype Step = MakeDraft | PublishNpm | PushTag | PublishRelease

  /** A step that has already happened changes nothing. */
  function Do(r: Release, w: World, step: Step): World {
    match step
    case MakeDraft => if w.release == NoRelease then w.(release := IsDraft) else w
    case PublishNpm =>
      if w.npm.Some? then w
      else w.(npm := Some(r.bytes), tags := Some((if w.tags.Some? then w.tags.value else map[])[r.distTag := r.version]))
    case PushTag => if w.tag.None? then w.(tag := Some(r.target)) else w
    case PublishRelease => w.(release := IsPublished)
  }

  /** The registry has never heard of this version. */
  predicate Untouched(r: Release, w: World) {
    && w.release == NoRelease && w.tag.None? && w.npm.None?
    && (w.tags.Some? ==> forall t :: t in w.tags.value ==> w.tags.value[t] != r.version)
  }

  /** What correct steps leave, in whatever order and however often a run has died. */
  ghost predicate IsPartial(r: Release, w: World) {
    && (w.tag.Some? ==> Lower(w.tag.value) == Lower(r.target))
    && (w.npm.Some? ==> w.npm == Some(r.bytes))
    && (w.npm.Some? <==> w.tags.Some? && r.distTag in w.tags.value && w.tags.value[r.distTag] == r.version)
    && (w.tags.Some? ==> forall t :: t in w.tags.value && t != r.distTag ==> w.tags.value[t] != r.version)
  }

  function Observed(r: Release, w: World, compared: bool): Facts {
    Facts(r.version, true, r.target, w.tag, w.release != NoRelease, w.release == IsDraft, w.npm,
          if compared then Some(r.bytes) else None, r.distTag, w.tags)
  }

  predicate AllDone(w: World) {
    w.release == IsPublished && w.tag.Some? && w.npm.Some?
  }

  lemma UntouchedIsPartial(r: Release, w: World)
    requires Untouched(r, w)
    ensures IsPartial(r, w)
  {
  }

  lemma StepKeepsPartial(r: Release, w: World, step: Step)
    requires IsPartial(r, w)
    ensures IsPartial(r, Do(r, w, step))
  {
  }

  function DoAll(r: Release, w: World, steps: seq<Step>): World
    decreases steps
  {
    if steps == [] then w else DoAll(r, Do(r, w, steps[0]), steps[1..])
  }

  /** Every world that any steps in any order lead to. */
  lemma {:induction false} StepsKeepPartial(r: Release, w: World, steps: seq<Step>)
    requires IsPartial(r, w)
    ensures IsPartial(r, DoAll(r, w, steps))
    decreases steps
  {
    if steps != [] {
      StepKeepsPartial(r, w, steps[0]);
      StepsKeepPartial(r, Do(r, w, steps[0]), steps[1..]);
    }
  }

  /** Of a partial release the resolver never reports a conflict, and says exactly whether it is done. */
  lemma PartialIsNeverAConflict(r: Release, w: World, steps: seq<Step>, compared: bool)
    requires Untouched(r, w)
    ensures var now := DoAll(r, w, steps);
      var s := ResolveReleaseState(Observed(r, now, compared));
      && !s.Conflict? && !s.Skip?
      && (s.Complete? <==> AllDone(now) && compared)
      && (s.Unverified? <==> AllDone(now) && !compared)
      && (Proceeds(s) <==> !AllDone(now))
      && (s.Fresh? <==> now.release == NoRelease && now.tag.None? && now.npm.None?)
      && (now.npm.None? && !AllDone(now) ==> NeedsNpm(s))
      && (compared && now.npm.Some? && !AllDone(now) ==> s.ResumeGithub?)
  {
    UntouchedIsPartial(r, w);
    StepsKeepPartial(r, w, steps);
    ResolvePartial(r, DoAll(r, w, steps), compared);
  }

  lemma ResolvePartial(r: Release, w: World, compared: bool)
    requires IsPartial(r, w)
    ensures var s := ResolveReleaseState(Observed(r, w, compared));
      && !s.Conflict? && !s.Skip?
      && (s.Complete? <==> AllDone(w) && compared)
      && (s.Unverified? <==> AllDone(w) && !compared)
      && (Proceeds(s) <==> !AllDone(w))
      && (s.Fresh? <==> w.release == NoRelease && w.tag.None? && w.npm.None?)
      && (w.npm.None? && !AllDone(w) ==> NeedsNpm(s))
      && (compared && w.npm.Some? && !AllDone(w) ==> s.ResumeGithub?)
  {
  }

  // ---- runs that resume --------------------------------------------------------------------------------

  /** What a run still has to do, in the order of the workflow; the publish step only when the gate asks for it. */
  function Plan(w: World, s: State): seq<Step> {
    (if w.release == NoRelease then [MakeDraft] else [])
    + (if NeedsNpm(s) && w.npm.None? then [PublishNpm] else [])
    + (if w.tag.None? then [PushTag] else [])
    + (if w.release != IsPublished then [PublishRelease] else [])
  }

  /** One run: resolve, then the first `reach` steps of the plan, where it dies or ends. */
  function Attempt(r: Release, w: World, compared: bool, reach: nat): World {
    var s := ResolveReleaseState(Observed(r, w, compared));
    if !Proceeds(s) then w
    else
      var plan := Plan(w, s);
      DoAll(r, w, if reach < |plan| then plan[..reach] else plan)
  }

  function Missing(w: World): nat {
    (if w.release == NoRelease then 2 else if w.release == IsDraft then 1 else 0)
    + (if w.tag.None? then 1 else 0) + (if w.npm.None? then 1 else 0)
  }

  /** A step of the plan is missing when its turn comes. */
  predicate IsMissing(w: World, step: Step) {
    match step
    case MakeDraft => w.release == NoRelease
    case PublishNpm => w.npm.None?
    case PushTag => w.tag.None?
    case PublishRelease => w.release == IsDraft
  }

  /** The plan of an unfinished release starts with a missing step, and goes on as the plan of what that step leaves. */
  lemma PlanGoesOn(r: Release, w: World, s: State)
    requires w.npm.None? ==> NeedsNpm(s)
    ensures |Plan(w, s)| == Missing(w)
    ensures Plan(w, s) != [] ==>
      && IsMissing(w, Plan(w, s)[0])
      && Missing(Do(r, w, Plan(w, s)[0])) == Missing(w) - 1
      && Plan(Do(r, w, Plan(w, s)[0]), s) == Plan(w, s)[1..]
  {
  }

  lemma {:induction false} PlanRuns(r: Release, w: World, s: State, n: nat)
    requires IsPartial(r, w) && (w.npm.None? ==> NeedsNpm(s)) && n <= |Plan(w, s)|
    ensures IsPartial(r, DoAll(r, w, Plan(w, s)[..n])) && Missing(DoAll(r, w, Plan(w, s)[..n])) == Missing(w) - n
    decreases n
  {
    var plan := Plan(w, s);
    PlanGoesOn(r, w, s);
    if n > 0 {
      var next := Do(r, w, plan[0]);
      StepKeepsPartial(r, w, plan[0]);
      PlanRuns(r, next, s, n - 1);
      assert plan[..n][1..] == plan[1..][..n - 1];
    }
  }

  lemma DoneIsNothingMissing(w: World)
    ensures AllDone(w) <==> Missing(w) == 0
  {
  }

  /** A run gets as far as it reaches: every step it does was missing, and it skips nothing. */
  lemma AttemptProgresses(r: Release, w: World, compared: bool, reach: nat)
    requires IsPartial(r, w)
    ensures var next := Attempt(r, w, compared, reach);
      IsPartial(r, next) && Missing(next) == if reach < Missing(w) then Missing(w) - reach else 0
  {
    var s := ResolveReleaseState(Observed(r, w, compared));
    ResolvePartial(r, w, compared);
    DoneIsNothingMissing(w);
    if Proceeds(s) {
      PlanGoesOn(r, w, s);
      var n := if reach < |Plan(w, s)| then reach else |Plan(w, s)|;
      PlanRuns(r, w, s, n);
      assert Plan(w, s)[..|Plan(w, s)|] == Plan(w, s);
    }
  }

  /** Runs one after the other; each resolves afresh, with or without the bytes at hand, and may die anywhere. */
  function Attempts(r: Release, w: World, compared: seq<bool>, reaches: seq<nat>): World
    requires |compared| == |reaches|
    decreases reaches
  {
    if reaches == [] then w
    else Attempts(r, Attempt(r, w, compared[0], reaches[0]), compared[1..], reaches[1..])
  }

  function Sum(reaches: seq<nat>): nat {
    if reaches == [] then 0 else reaches[0] + Sum(reaches[1..])
  }

  /** Together the runs do exactly as many missing steps as they reach. */
  lemma {:induction false} AttemptsProgress(r: Release, w: World, compared: seq<bool>, reaches: seq<nat>)
    requires IsPartial(r, w) && |compared| == |reaches|
    ensures var end := Attempts(r, w, compared, reaches);
      IsPartial(r, end) && Missing(end) == if Sum(reaches) < Missing(w) then Missing(w) - Sum(reaches) else 0
    decreases reaches
  {
    if reaches != [] {
      AttemptProgresses(r, w, compared[0], reaches[0]);
      AttemptsProgress(r, Attempt(r, w, compared[0], reaches[0]), compared[1..], reaches[1..]);
    }
  }

  /** Resolve and do what is missing, four reached steps at most in all: then the release is complete. */
  lemma ResumingCompletes(r: Release, w: World, compared: seq<bool>, reaches: seq<nat>)
    requires Untouched(r, w) && |compared| == |reaches|
    ensures Missing(w) == 4
    ensures var end := Attempts(r, w, compared, reaches);
      ResolveReleaseState(Observed(r, end, true)).Complete? <==> Sum(reaches) >= 4
  {
    UntouchedIsPartial(r, w);
    AttemptsProgress(r, w, compared, reaches);
    var end := Attempts(r, w, compared, reaches);
    ResolvePartial(r, end, true);
    DoneIsNothingMissing(end);
  }

  // ---- steps that are not correct ------------------------------------------------------------------------

  /** A registry that took the version without its dist-tag stops every later run that has the bytes. */
  lemma LostDistTagIsAConflict(r: Release, w: World)
    requires w.npm == Some(r.bytes) && !(w.tags.Some? && r.distTag in w.tags.value && w.tags.value[r.distTag] == r.version)
    ensures ResolveReleaseState(Observed(r, w, true)).Conflict?
  {
  }

  /** Bytes that differ are a conflict exactly when they are compared; a deferred comparison lets the run go on. */
  lemma OtherBytesConflictWhenCompared(r: Release, w: World, bytes: string)
    requires IsPartial(r, w) && w.npm.Some? && bytes != r.bytes
    ensures ResolveReleaseState(Observed(r, w.(npm := Some(bytes)), true)).Conflict?
    ensures !ResolveReleaseState(Observed(r, w.(npm := Some(bytes)), false)).Conflict?
  {
  }
}
