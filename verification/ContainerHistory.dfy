/**
 What any sequence of container runs does to the registries, each run possibly killed
 between two tag writes.
 */
module ContainerHistory {
  import opened Wrappers
  import opened ContainerTags
  import opened ContainerManifest

  /** One run: its options and the references it got to write before it died or finished. */
  datatype Effect = Effect(o: Options, written: set<Ref>)

  ghost predicate Legal(e: Effect) {
    ValidOptions(e.o) && forall r :: r in e.written ==> Planned(e.o, r)
  }

  function Step(store: Store, regs: Registries, e: Effect): Registries {
    var decision := ChooseIndex(store, regs, e.o);
    if decision.Err? then regs else Written(regs, e.written, decision.value)
  }

  function History(store: Store, regs: Registries, es: seq<Effect>): Registries {
    if es == [] then regs else Step(store, History(store, regs, es[..|es| - 1]), es[|es| - 1])
  }

  /** Every prefix of a run's writes is an effect, so histories cover every crash point. */
  lemma CrashIsEffect(store: Store, regs: Registries, o: Options, k: nat)
    requires ValidOptions(o) && k <= |WriteOrder(o.images, o.plan.tags)| && ChooseIndex(store, regs, o).Ok?
    ensures var refs := WriteOrder(o.images, o.plan.tags)[..k];
      && Legal(Effect(o, SetOf(refs)))
      && WriteAll(regs, refs, ChooseIndex(store, regs, o).value) == Step(store, regs, Effect(o, SetOf(refs)))
  {
    WriteOrderIsPlanned(o.images, o.plan.tags);
    WriteAllIsWritten(regs, WriteOrder(o.images, o.plan.tags)[..k], ChooseIndex(store, regs, o).value);
  }

  // ---- what the decision knows ------------------------------------------------------

  lemma {:induction false} SurveyMeans(store: Store, regs: Registries, images: seq<string>, v: Version)
    requires SurveyAll(store, regs, images, v).Ok?
    ensures var present := SurveyAll(store, regs, images, v).value;
      && (forall i :: i in images && Ref(i, VersionTag(v)) in regs ==>
            var served := regs[Ref(i, VersionTag(v))];
            served.Index? && served.manifests in present && GoodShape(store, Platforms(store, served.manifests)))
      && (forall p :: p in present ==>
            exists i :: i in images && Ref(i, VersionTag(v)) in regs && regs[Ref(i, VersionTag(v))] == Index(p))
  {
    if images != [] {
      var n := |images| - 1;
      SurveyMeans(store, regs, images[..n], v);
      assert images == images[..n] + [images[n]];
    }
  }

  lemma FilterAll<T(!new)>(xs: seq<T>, keep: T -> bool)
    requires forall x :: x in xs ==> keep(x)
    ensures Filter(xs, keep) == xs
  {
    if xs != [] {
      FilterAll(xs[1..], keep);
    }
  }

  function ManifestsOf(store: Store, served: Served): multiset<Manifest> {
    if served.Index? then multiset(Platforms(store, served.manifests)) else multiset{}
  }

  /** The index a run writes carries the manifests every registry already serves. */
  lemma DecisionKeepsManifests(store: Store, regs: Registries, o: Options, image: string)
    requires ChooseIndex(store, regs, o).Ok? && image in o.images && Ref(image, VersionTag(o.version)) in regs
    ensures regs[Ref(image, VersionTag(o.version))].Index?
    ensures ManifestsOf(store, regs[Ref(image, VersionTag(o.version))])
         == ManifestsOf(store, Index(ChooseIndex(store, regs, o).value))
  {
    SurveyMeans(store, regs, o.images, o.version);
    var present := SurveyAll(store, regs, o.images, o.version).value;
    var published := Platforms(store, present[0]);
    if multiset(published) == multiset(o.digests) {
      forall m | m in o.digests ensures m in published {
        assert m in multiset(o.digests);
      }
      FilterAll(o.digests, m => store.architecture(m) != "unknown");
    }
  }

  lemma WrittenTagIsFloating(plan: TagPlan, v: Version, t: Tag)
    requires Partitions(plan, v) && t in plan.tags[1..]
    ensures t in FloatingUniverse(SeriesOf(v)) && t !in plan.mustNotMove
  {
    var written, rest := multiset(plan.tags[1..]), multiset(plan.mustNotMove);
    assert written[t] >= 1;
    assert (written + rest)[t] == multiset{Latest, Next, SeriesOf(v)}[t];
    assert rest[t] == 0;
  }

  lemma MustNotMoveIsFloating(plan: TagPlan, v: Version, t: Tag)
    requires Partitions(plan, v) && t in plan.mustNotMove
    ensures t in FloatingUniverse(SeriesOf(v))
  {
    assert t in multiset(plan.tags[1..]) + multiset(plan.mustNotMove);
  }

  lemma VersionTagIsPlanned(o: Options, image: string, w: Version)
    requires ValidOptions(o)
    ensures Planned(o, Ref(image, VersionTag(w))) <==> image in o.images && w == o.version
  {
    if VersionTag(w) in o.plan.tags[1..] {
      WrittenTagIsFloating(o.plan, o.version, VersionTag(w));
    }
    assert o.plan.tags == [o.plan.tags[0]] + o.plan.tags[1..];
  }

  // ---- immutability and agreement ------------------------------------------------------

  /** No run changes the set of platform manifests behind a version tag that exists. */
  lemma RunKeepsVersion(store: Store, regs: Registries, e: Effect, image: string, w: Version)
    requires Legal(e) && Ref(image, VersionTag(w)) in regs
    ensures var r := Ref(image, VersionTag(w));
      r in Step(store, regs, e) && ManifestsOf(store, Step(store, regs, e)[r]) == ManifestsOf(store, regs[r])
  {
    if ChooseIndex(store, regs, e.o).Ok? && Ref(image, VersionTag(w)) in e.written {
      VersionTagIsPlanned(e.o, image, w);
      DecisionKeepsManifests(store, regs, e.o, image);
    }
  }

  /** Nor does any sequence of runs, whatever their builds, labels and crash points. */
  lemma {:induction false} VersionsAreImmutable(
    store: Store, regs: Registries, es: seq<Effect>, image: string, w: Version)
    requires (forall e :: e in es ==> Legal(e)) && Ref(image, VersionTag(w)) in regs
    ensures var r := Ref(image, VersionTag(w));
      && r in History(store, regs, es)
      && ManifestsOf(store, History(store, regs, es)[r]) == ManifestsOf(store, regs[r])
  {
    if es != [] {
      VersionsAreImmutable(store, regs, es[..|es| - 1], image, w);
      RunKeepsVersion(store, History(store, regs, es[..|es| - 1]), es[|es| - 1], image, w);
    }
  }

  /** All registries that have the version serve the same manifests. */
  ghost predicate SameEverywhere(store: Store, regs: Registries, images: set<string>, v: Version) {
    forall a, b ::
      a in images && b in images && Ref(a, VersionTag(v)) in regs && Ref(b, VersionTag(v)) in regs ==>
      ManifestsOf(store, regs[Ref(a, VersionTag(v))]) == ManifestsOf(store, regs[Ref(b, VersionTag(v))])
  }

  lemma RunKeepsAgreement(store: Store, regs: Registries, e: Effect, images: set<string>, v: Version)
    requires Legal(e) && SameEverywhere(store, regs, images, v)
    requires e.o.version == v ==> SetOf(e.o.images) == images
    ensures SameEverywhere(store, Step(store, regs, e), images, v)
  {
    var decision := ChooseIndex(store, regs, e.o);
    if decision.Ok? {
      forall a | a in images && Ref(a, VersionTag(v)) in Step(store, regs, e)
        ensures var served := Step(store, regs, e)[Ref(a, VersionTag(v))];
          if v == e.o.version then ManifestsOf(store, served) == ManifestsOf(store, Index(decision.value))
          else Ref(a, VersionTag(v)) in regs && served == regs[Ref(a, VersionTag(v))]
      {
        VersionTagIsPlanned(e.o, a, v);
        if v == e.o.version && Ref(a, VersionTag(v)) in regs {
          DecisionKeepsManifests(store, regs, e.o, a);
        }
      }
    }
  }

  /** However often a release is run and killed, the registries never come to disagree. */
  lemma {:induction false} RegistriesAgree(
    store: Store, regs: Registries, es: seq<Effect>, images: set<string>, v: Version)
    requires forall e :: e in es ==> Legal(e) && (e.o.version == v ==> SetOf(e.o.images) == images)
    requires SameEverywhere(store, regs, images, v)
    ensures SameEverywhere(store, History(store, regs, es), images, v)
  {
    if es != [] {
      RegistriesAgree(store, regs, es[..|es| - 1], images, v);
      RunKeepsAgreement(store, History(store, regs, es[..|es| - 1]), es[|es| - 1], images, v);
    }
  }

  // ---- with the digests in a fixed order the index itself is stable ------------------------

  /** The release's own build, amd64 before arm64, as both workflows pass it. */
  predicate ProperBuild(store: Store, digests: seq<Manifest>, v: Version, revision: string) {
    && |digests| == 2
    && store.os(digests[0]) == "linux" && store.architecture(digests[0]) == "amd64"
    && store.os(digests[1]) == "linux" && store.architecture(digests[1]) == "arm64"
    && IsOurRelease(store.labels(digests[0]), v, revision)
    && IsOurRelease(store.labels(digests[1]), v, revision)
  }

  /** Every registry that has the version serves one index, a proper build of the release. */
  ghost predicate Settled(store: Store, regs: Registries, images: set<string>, v: Version, revision: string) {
    forall a :: a in images && Ref(a, VersionTag(v)) in regs ==>
      var served := regs[Ref(a, VersionTag(v))];
      && served.Index? && ProperBuild(store, served.manifests, v, revision)
      && forall b :: b in images && Ref(b, VersionTag(v)) in regs ==> regs[Ref(b, VersionTag(v))] == served
  }

  ghost predicate ProperRun(store: Store, e: Effect, images: set<string>, v: Version, revision: string) {
    && Legal(e) && SetOf(e.o.images) == images && e.o.version == v && e.o.revision == revision
    && ProperBuild(store, e.o.digests, v, revision)
  }

  lemma ProperBuildIsGoodIndex(store: Store, digests: seq<Manifest>, v: Version, revision: string)
    requires ProperBuild(store, digests, v, revision)
    ensures Platforms(store, digests) == digests && GoodShape(store, digests)
  {
    FilterAll(digests, m => store.architecture(m) != "unknown");
  }

  /** Two proper builds with the same manifests list them in the same order. */
  lemma ProperOrderIsUnique(store: Store, a: seq<Manifest>, b: seq<Manifest>, v: Version, revision: string)
    requires ProperBuild(store, a, v, revision) && ProperBuild(store, b, v, revision)
    requires multiset(a) == multiset(b)
    ensures a == b
  {
    assert a[0] in multiset(b) && a[1] in multiset(b);
    assert a[0] == b[0] && a[1] == b[1];
  }

  lemma {:induction false} SettledSurveys(
    store: Store, regs: Registries, images: seq<string>, all: set<string>, v: Version, revision: string)
    requires SetOf(images) <= all && Settled(store, regs, all, v, revision)
    ensures SurveyAll(store, regs, images, v).Ok?
  {
    if images != [] {
      var n := |images| - 1;
      assert images == images[..n] + [images[n]];
      SettledSurveys(store, regs, images[..n], all, v, revision);
      var r := Ref(images[n], VersionTag(v));
      if r in regs {
        assert images[n] in all;
        ProperBuildIsGoodIndex(store, regs[r].manifests, v, revision);
      }
    }
  }

  /** Where the version is settled, the survey finds one index, a proper build. */
  lemma SettledSurveyIsOne(store: Store, regs: Registries, images: seq<string>, v: Version, revision: string)
    requires Settled(store, regs, SetOf(images), v, revision)
    ensures SurveyAll(store, regs, images, v).Ok?
    ensures var present := SurveyAll(store, regs, images, v).value;
      && Agree(present)
      && (present != [] ==> ProperBuild(store, present[0], v, revision))
      && (forall i :: i in images && Ref(i, VersionTag(v)) in regs ==>
            present != [] && regs[Ref(i, VersionTag(v))] == Index(present[0]))
  {
    SettledSurveys(store, regs, images, SetOf(images), v, revision);
    SurveyMeans(store, regs, images, v);
    var present := SurveyAll(store, regs, images, v).value;
    if present != [] {
      assert present[0] in present;
      var i :| i in images && Ref(i, VersionTag(v)) in regs && regs[Ref(i, VersionTag(v))] == Index(present[0]);
      assert i in SetOf(images);
      forall k | 0 <= k < |present| ensures present[k] == present[0] {
        assert present[k] in present;
        var j :| j in images && Ref(j, VersionTag(v)) in regs && regs[Ref(j, VersionTag(v))] == Index(present[k]);
        assert j in SetOf(images);
      }
    }
  }

  /** A proper build that has been found is adopted, or is what the run was going to write. */
  lemma FoundIsChosen(store: Store, regs: Registries, e: Effect, v: Version, revision: string, present: seq<seq<Manifest>>)
    requires e.o.version == v && e.o.revision == revision && ProperBuild(store, e.o.digests, v, revision)
    requires SurveyAll(store, regs, e.o.images, v) == Ok(present) && Agree(present)
    requires present != [] ==> ProperBuild(store, present[0], v, revision)
    ensures ChooseIndex(store, regs, e.o) == Ok(if present == [] then e.o.digests else present[0])
  {
    if present != [] {
      ProperBuildIsGoodIndex(store, present[0], v, revision);
      if multiset(present[0]) == multiset(e.o.digests) {
        ProperOrderIsUnique(store, present[0], e.o.digests, v, revision);
      }
    }
  }

  /** The release's own run is never refused, and it writes the index already there. */
  lemma ProperRunDecides(store: Store, regs: Registries, e: Effect, images: set<string>, v: Version, revision: string)
    requires ProperRun(store, e, images, v, revision) && Settled(store, regs, images, v, revision)
    ensures ChooseIndex(store, regs, e.o).Ok?
    ensures ProperBuild(store, ChooseIndex(store, regs, e.o).value, v, revision)
    ensures forall a :: a in images && Ref(a, VersionTag(v)) in regs ==>
      regs[Ref(a, VersionTag(v))] == Index(ChooseIndex(store, regs, e.o).value)
  {
    SettledSurveyIsOne(store, regs, e.o.images, v, revision);
    FoundIsChosen(store, regs, e, v, revision, SurveyAll(store, regs, e.o.images, v).value);
  }

  /** A run, finished or killed, leaves every index behind the version tag as it was. */
  lemma ProperRunKeepsIndex(store: Store, regs: Registries, e: Effect, images: set<string>, v: Version, revision: string)
    requires ProperRun(store, e, images, v, revision) && Settled(store, regs, images, v, revision)
    ensures Settled(store, Step(store, regs, e), images, v, revision)
    ensures forall a :: a in images && Ref(a, VersionTag(v)) in regs ==>
      Ref(a, VersionTag(v)) in Step(store, regs, e)
      && Step(store, regs, e)[Ref(a, VersionTag(v))] == regs[Ref(a, VersionTag(v))]
  {
    ProperRunDecides(store, regs, e, images, v, revision);
  }

  lemma {:induction false} IndexIsStable(
    store: Store, regs: Registries, es: seq<Effect>, images: set<string>, v: Version, revision: string)
    requires forall e :: e in es ==> ProperRun(store, e, images, v, revision)
    requires Settled(store, regs, images, v, revision)
    ensures Settled(store, History(store, regs, es), images, v, revision)
    ensures forall a :: a in images && Ref(a, VersionTag(v)) in regs ==>
      Ref(a, VersionTag(v)) in History(store, regs, es)
      && History(store, regs, es)[Ref(a, VersionTag(v))] == regs[Ref(a, VersionTag(v))]
  {
    if es != [] {
      IndexIsStable(store, regs, es[..|es| - 1], images, v, revision);
      ProperRunKeepsIndex(store, History(store, regs, es[..|es| - 1]), es[|es| - 1], images, v, revision);
    }
  }

  /** After any number of killed runs, one complete run puts every planned tag on one index. */
  lemma RepairConverges(
    store: Store, regs: Registries, es: seq<Effect>, last: Effect, images: set<string>, v: Version, revision: string)
    requires forall e :: e in es ==> ProperRun(store, e, images, v, revision)
    requires Settled(store, regs, images, v, revision) && ProperRun(store, last, images, v, revision)
    requires forall r :: Planned(last.o, r) ==> r in last.written
    ensures var before := History(store, regs, es);
      var after := Step(store, before, last);
      && ChooseIndex(store, before, last.o).Ok?
      && (forall r :: Planned(last.o, r) ==>
            r in after && after[r] == Index(ChooseIndex(store, before, last.o).value))
      && PassesChecks(store, last.o, Index(ChooseIndex(store, before, last.o).value), before, after, after, after)
      && (forall a :: a in images && Ref(a, VersionTag(v)) in regs ==>
            regs[Ref(a, VersionTag(v))] == Index(ChooseIndex(store, before, last.o).value))
  {
    IndexIsStable(store, regs, es, images, v, revision);
    ProperRunDecides(store, History(store, regs, es), last, images, v, revision);
    ProperBuildCarriesBoth(store, ChooseIndex(store, History(store, regs, es), last.o).value, v, revision);
    CompleteRunPasses(store, History(store, regs, es), last);
  }

  lemma ProperBuildCarriesBoth(store: Store, digests: seq<Manifest>, v: Version, revision: string)
    requires ProperBuild(store, digests, v, revision)
    ensures CarriesBoth(store, Some(Index(digests)))
  {
    ProperBuildIsGoodIndex(store, digests, v, revision);
    assert digests[0] in digests && digests[1] in digests;
  }

  /** A run that got through all its writes, with nobody meddling, passes its own checks exactly when its index carries both platforms. */
  lemma CompleteRunPasses(store: Store, regs: Registries, e: Effect)
    requires Legal(e) && ChooseIndex(store, regs, e.o).Ok? && forall r :: Planned(e.o, r) ==> r in e.written
    ensures var index, after := Index(ChooseIndex(store, regs, e.o).value), Step(store, regs, e);
      PassesChecks(store, e.o, index, regs, after, after, after) <==> CarriesBoth(store, Some(index))
  {
    WriteOrderIsPlanned(e.o.images, e.o.plan.mustNotMove);
    assert Planned(e.o, FirstTag(e.o));
    forall r: Ref | r in SetOf(WriteOrder(e.o.images, e.o.plan.mustNotMove))
      ensures Resolve(Step(store, regs, e), r) == Resolve(regs, r)
    {
      RunKeepsTheRest(store, regs, e, r);
    }
  }

  /** Any index but a first publish of a build that lacks a platform does. */
  lemma ChosenCarriesBoth(store: Store, regs: Registries, o: Options)
    requires ChooseIndex(store, regs, o).Ok? && SurveyAll(store, regs, o.images, o.version).value != []
    ensures CarriesBoth(store, Some(Index(ChooseIndex(store, regs, o).value)))
  {
    SurveyMeans(store, regs, o.images, o.version);
    var present := SurveyAll(store, regs, o.images, o.version).value;
    var published := Platforms(store, present[0]);
    assert present[0] in present;
    GoodShapeCarriesBoth(store, published);
    assert Platforms(store, published) == published by {
      PlatformsTwice(store, present[0]);
    }
    if multiset(published) == multiset(o.digests) {
      SamePlatforms(store, published, o.digests, "linux", "amd64");
      SamePlatforms(store, published, o.digests, "linux", "arm64");
    }
  }

  lemma PlatformsTwice(store: Store, index: seq<Manifest>)
    ensures Platforms(store, Platforms(store, index)) == Platforms(store, index)
  {
    FilterAll(Platforms(store, index), m => store.architecture(m) != "unknown");
  }

  lemma SamePlatforms(store: Store, a: seq<Manifest>, b: seq<Manifest>, os: string, architecture: string)
    requires multiset(a) == multiset(b) && architecture != "unknown"
    requires exists m :: m in a && store.os(m) == os && store.architecture(m) == architecture
    ensures HasPlatform(store, b, os, architecture)
  {
    var m :| m in a && store.os(m) == os && store.architecture(m) == architecture;
    assert m in multiset(b);
    assert m in Platforms(store, b);
  }

  lemma GoodShapeCarriesBoth(store: Store, platforms: seq<Manifest>)
    requires GoodShape(store, platforms)
    ensures exists m :: m in platforms && store.os(m) == "linux" && store.architecture(m) == "amd64"
    ensures exists m :: m in platforms && store.os(m) == "linux" && store.architecture(m) == "arm64"
  {
    var first, second := platforms[0], platforms[1];
    assert first in platforms && second in platforms;
    if PlatformName(store, first) == AMD64 {
      NameSplits(store.os(first), store.architecture(first), "amd64");
      NameSplits(store.os(second), store.architecture(second), "arm64");
    } else {
      NameSplits(store.os(first), store.architecture(first), "arm64");
      NameSplits(store.os(second), store.architecture(second), "amd64");
    }
  }

  lemma NameSplits(os: string, architecture: string, name: string)
    requires os + "/" + architecture == "linux" + "/" + name && forall i :: 0 <= i < |name| ==> name[i] != '/'
    ensures os == "linux" && architecture == name
  {
    var s, t := os + "/" + architecture, "linux" + "/" + name;
    assert s[|os|] == '/' && t[5] == '/';
    assert forall i :: 0 <= i < |t| && i != 5 ==> t[i] != '/';
    assert |os| == 5 && s[..5] == os && t[..5] == "linux" && s[6..] == architecture && t[6..] == name;
  }

  /** Without the fixed order a re-tag keeps the index exactly when it lists it as published. */
  lemma RetagKeepsIndexIff(store: Store, regs: Registries, e: Effect, image: string)
    requires Legal(e) && image in e.o.images && ChooseIndex(store, regs, e.o).Ok?
    requires var r := Ref(image, VersionTag(e.o.version));
      && r in regs && r in e.written
      && ManifestsOf(store, regs[r]) == multiset(e.o.digests)
    ensures Step(store, regs, e)[Ref(image, VersionTag(e.o.version))] == regs[Ref(image, VersionTag(e.o.version))]
      <==> regs[Ref(image, VersionTag(e.o.version))] == Index(e.o.digests)
  {
    SurveyMeans(store, regs, e.o.images, e.o.version);
  }

  /**
   A re-tag in another order that dies between two registries leaves them on different
   indexes, and then every later run of that release is refused.
   */
  lemma SwappedRetagJams(store: Store, regs: Registries, e: Effect, a: string, b: string, o: Options)
    requires ValidOptions(e.o) && e.written == {Ref(a, VersionTag(e.o.version))}
    requires a in e.o.images && b in e.o.images && a != b
    requires ChooseIndex(store, regs, e.o) == Ok(e.o.digests)
    requires Ref(b, VersionTag(e.o.version)) in regs
      && regs[Ref(b, VersionTag(e.o.version))] != Index(e.o.digests)
    requires o.version == e.o.version && a in o.images && b in o.images
    ensures ChooseIndex(store, Step(store, regs, e), o).Err?
  {
    var after := Step(store, regs, e);
    if SurveyAll(store, after, o.images, o.version).Ok? {
      SurveyMeans(store, after, o.images, o.version);
      var present := SurveyAll(store, after, o.images, o.version).value;
      assert after[Ref(a, VersionTag(o.version))].manifests in present;
      assert after[Ref(b, VersionTag(o.version))].manifests in present;
    }
  }

  /** One such case: two registries on amd64 before arm64, a run of the same two manifests the other way round. */
  function SwapVersion(): Version {
    Version(1, 0, 0, None)
  }

  function SwapStore(): Store {
    Store(m => "linux", m => if m == "x" then "amd64" else "arm64", m => Provenance(Some(SwapVersion()), Some("r")))
  }

  function SwapRegistries(): Registries {
    map[Ref("a", VersionTag(SwapVersion())) := Index(["x", "y"]), Ref("b", VersionTag(SwapVersion())) := Index(["x", "y"])]
  }

  function SwapPlan(): TagPlan {
    WithMustNotMove(true, SeriesOf(SwapVersion()), [VersionTag(SwapVersion()), SeriesOf(SwapVersion()), Latest])
  }

  function SwapOptions(): Options {
    Options(SwapVersion(), "r", SwapPlan(), ["a", "b"], ["y", "x"])
  }

  lemma SwappedRetagHappens()
    ensures var e := Effect(SwapOptions(), {Ref("a", VersionTag(SwapVersion()))});
      && Legal(e) && PlanTags(Some(SwapVersion()), "latest") == Ok(SwapPlan())
      && ChooseIndex(SwapStore(), SwapRegistries(), e.o) == Ok(e.o.digests)
      && ChooseIndex(SwapStore(), Step(SwapStore(), SwapRegistries(), e), e.o).Err?
  {
    var o := SwapOptions();
    SwapPlanIsPlanned();
    SwapSurvey();
    SwapIsValid();
    AgreedRetagJams(SwapStore(), SwapRegistries(), o, o.images[0], o.images[1], ["x", "y"]);
  }

  lemma SwapIsValid()
    ensures ValidOptions(SwapOptions()) && multiset(["x", "y"]) == multiset(["y", "x"]) && ["x", "y"] != ["y", "x"]
    ensures var b := Ref("b", VersionTag(SwapVersion())); b in SwapRegistries() && SwapRegistries()[b] == Index(["x", "y"])
  {
    SwapPlanIsPlanned();
    PairSwaps("x", "y");
    PairSwaps("a", "b");
    PairSwaps("y", "x");
  }

  lemma PairSwaps(a: string, b: string)
    requires a != b
    ensures multiset([a, b]) == multiset([b, a]) && [a, b] != [b, a] && Distinct([a, b])
  {
    assert [a, b][0] != [b, a][0];
    assert multiset([a, b]) == multiset{a, b} && multiset([b, a]) == multiset{a, b};
  }

  /** Whenever all registries agree on an index of this build's manifests in another order. */
  lemma AgreedRetagJams(store: Store, regs: Registries, o: Options, a: string, b: string, index: seq<Manifest>)
    requires ValidOptions(o) && a in o.images && b in o.images && a != b
    requires SurveyAll(store, regs, o.images, o.version) == Ok([index, index]) && Platforms(store, index) == index
    requires multiset(index) == multiset(o.digests) && index != o.digests
    requires Ref(b, VersionTag(o.version)) in regs && regs[Ref(b, VersionTag(o.version))] == Index(index)
    ensures var e := Effect(o, {Ref(a, VersionTag(o.version))});
      && Legal(e) && ChooseIndex(store, regs, o) == Ok(o.digests)
      && ChooseIndex(store, Step(store, regs, e), o).Err?
  {
    VersionTagIsPlanned(o, a, o.version);
    SwappedRetagJams(store, regs, Effect(o, {Ref(a, VersionTag(o.version))}), a, b, o);
  }

  lemma SwapPlanIsPlanned()
    ensures PlanTags(Some(SwapVersion()), "latest") == Ok(SwapPlan()) && Partitions(SwapPlan(), SwapVersion())
  {
    var v := SwapVersion();
    assert [VersionTag(v)] + [SeriesOf(v)] + [Latest] == [VersionTag(v), SeriesOf(v), Latest];
    PlanPartitions(Some(v), "latest");
  }

  lemma SwapSurvey()
    ensures Platforms(SwapStore(), ["x", "y"]) == ["x", "y"]
    ensures SurveyAll(SwapStore(), SwapRegistries(), ["a", "b"], SwapVersion()) == Ok([["x", "y"], ["x", "y"]])
  {
    var store, regs, v, index := SwapStore(), SwapRegistries(), SwapVersion(), ["x", "y"];
    FilterAll(index, m => store.architecture(m) != "unknown");
    assert GoodShape(store, index);
    assert ["a", "b"][..1] == ["a"] && ["a"][..0] == [];
    assert SurveyAll(store, regs, [], v) == Ok([]);
    assert Survey(store, regs, "a", v) == Ok(Some(index)) && Survey(store, regs, "b", v) == Ok(Some(index));
    assert [] + ["a"] == ["a"] && ["a"] + ["b"] == ["a", "b"] && [] + [index] == [index] && [index] + [index] == [index, index];
    OneMore(store, regs, [], "a", v, [], index);
    OneMore(store, regs, ["a"], "b", v, [index], index);
  }

  lemma OneMore(store: Store, regs: Registries, images: seq<string>, image: string, v: Version,
                present: seq<seq<Manifest>>, index: seq<Manifest>)
    requires SurveyAll(store, regs, images, v) == Ok(present) && Survey(store, regs, image, v) == Ok(Some(index))
    ensures SurveyAll(store, regs, images + [image], v) == Ok(present + [index])
  {
    assert (images + [image])[..|images|] == images;
  }

  // ---- floating tags --------------------------------------------------------------------

  /** A run touches nothing it did not plan, least of all the tags it must not move. */
  lemma RunKeepsTheRest(store: Store, regs: Registries, e: Effect, r: Ref)
    requires Legal(e)
    ensures r.tag in e.o.plan.mustNotMove ==> !Planned(e.o, r)
    ensures !Planned(e.o, r) ==> Resolve(Step(store, regs, e), r) == Resolve(regs, r)
  {
    var plan := e.o.plan;
    assert plan.tags == [plan.tags[0]] + plan.tags[1..];
    if r.tag in plan.tags[1..] {
      WrittenTagIsFloating(plan, e.o.version, r.tag);
    } else if r.tag in plan.mustNotMove {
      MustNotMoveIsFloating(plan, e.o.version, r.tag);
    }
  }

  datatype Facts = Facts(distTags: DistTags, published: seq<Version>)

  function Authority(facts: Facts, v: Version): seq<Tag> {
    AuthoritativeFloating(v, SeriesOf(v), facts.distTags, facts.published)
  }

  /** A repair of one version that claims what npm proves, writing each version tag first. */
  ghost predicate AuthoritativeRepair(
    store: Store, e: Effect, images: set<string>, facts: Facts, revisions: Version -> string)
  {
    && ProperRun(store, e, images, e.o.version, revisions(e.o.version))
    && (forall t :: t in e.o.plan.tags[1..] ==> t in Authority(facts, e.o.version))
    && (forall r :: r in e.written ==> Ref(r.image, VersionTag(e.o.version)) in e.written)
  }

  /** Every prefix of a run's writes has the version tag of a registry before any floating tag of it. */
  lemma VersionTagComesFirst(o: Options, k: nat)
    requires Partitions(o.plan, o.version) && k <= |WriteOrder(o.images, o.plan.tags)|
    ensures var refs := WriteOrder(o.images, o.plan.tags)[..k];
      forall r :: r in refs ==> Ref(r.image, VersionTag(o.version)) in refs
  {
    FirstTagComesFirst(o.images, o.plan.tags, k);
  }

  lemma {:induction false} FirstTagComesFirst(images: seq<string>, tags: seq<Tag>, k: nat)
    requires tags != [] && k <= |WriteOrder(images, tags)|
    ensures var refs := WriteOrder(images, tags)[..k];
      forall r :: r in refs ==> Ref(r.image, tags[0]) in refs
  {
    if images != [] {
      var n := |images| - 1;
      var done, next := WriteOrder(images[..n], tags), RefsOf(images[n], tags);
      if k <= |done| {
        FirstTagComesFirst(images[..n], tags, k);
        assert (done + next)[..k] == done[..k];
      } else {
        FirstTagComesFirst(images[..n], tags, |done|);
        assert done[..|done|] == done;
        var more := next[..k - |done|];
        assert (done + next)[..k] == done + more;
        assert more[0] == Ref(images[n], tags[0]);
      }
    }
  }

  /** So a run that dies anywhere meets that clause of an authoritative repair. */
  lemma KilledRunWritesVersionFirst(e: Effect, k: nat)
    requires Legal(e) && k <= |WriteOrder(e.o.images, e.o.plan.tags)|
    requires e.written == SetOf(WriteOrder(e.o.images, e.o.plan.tags)[..k])
    ensures forall r :: r in e.written ==> Ref(r.image, VersionTag(e.o.version)) in e.written
  {
    VersionTagComesFirst(e.o, k);
  }

  ghost predicate AllSettled(store: Store, regs: Registries, images: set<string>, revisions: Version -> string) {
    forall v :: Settled(store, regs, images, v, revisions(v))
  }

  /** The tag is where it was, or on the index of a version it belongs to. */
  ghost predicate WellPlaced(before: Registries, after: Registries, facts: Facts, r: Ref) {
    || Resolve(after, r) == Resolve(before, r)
    || exists v :: r.tag in Authority(facts, v) && Ref(r.image, VersionTag(v)) in after
         && Resolve(after, r) == Some(after[Ref(r.image, VersionTag(v))])
  }

  lemma RepairKeepsOthersSettled(
    store: Store, regs: Registries, e: Effect, images: set<string>, facts: Facts, revisions: Version -> string)
    requires AuthoritativeRepair(store, e, images, facts, revisions) && AllSettled(store, regs, images, revisions)
    ensures AllSettled(store, Step(store, regs, e), images, revisions)
    ensures forall a, v :: a in images && Ref(a, VersionTag(v)) in regs ==>
      Resolve(Step(store, regs, e), Ref(a, VersionTag(v))) == Resolve(regs, Ref(a, VersionTag(v)))
  {
    var after := Step(store, regs, e);
    forall v ensures Settled(store, after, images, v, revisions(v))
      && forall a :: a in images && Ref(a, VersionTag(v)) in regs ==>
           Resolve(after, Ref(a, VersionTag(v))) == Resolve(regs, Ref(a, VersionTag(v)))
    {
      if v == e.o.version {
        ProperRunKeepsIndex(store, regs, e, images, v, revisions(v));
      } else {
        forall a ensures Resolve(after, Ref(a, VersionTag(v))) == Resolve(regs, Ref(a, VersionTag(v))) {
          VersionTagIsPlanned(e.o, a, v);
          RunKeepsTheRest(store, regs, e, Ref(a, VersionTag(v)));
        }
        assert Settled(store, regs, images, v, revisions(v));
      }
    }
  }

  /** What a repair writes under a floating tag is the index of its own version. */
  lemma RepairWrites(
    store: Store, before: Registries, regs: Registries, e: Effect, images: set<string>, facts: Facts,
    revisions: Version -> string, r: Ref)
    requires AuthoritativeRepair(store, e, images, facts, revisions) && ChooseIndex(store, regs, e.o).Ok?
    requires r in e.written && !r.tag.VersionTag?
    ensures WellPlaced(before, Step(store, regs, e), facts, r)
  {
    var v := e.o.version;
    assert r.tag in Authority(facts, v) by {
      assert Planned(e.o, r) && e.o.plan.tags[0] == VersionTag(v);
      assert e.o.plan.tags == [e.o.plan.tags[0]] + e.o.plan.tags[1..];
    }
    var after := Step(store, regs, e);
    var index := Index(ChooseIndex(store, regs, e.o).value);
    assert after[r] == index && after[Ref(r.image, VersionTag(v))] == index;
  }

  lemma RepairPlacesWell(
    store: Store, before: Registries, regs: Registries, e: Effect, images: set<string>, facts: Facts,
    revisions: Version -> string, r: Ref)
    requires AuthoritativeRepair(store, e, images, facts, revisions) && AllSettled(store, regs, images, revisions)
    requires r.image in images && !r.tag.VersionTag? && WellPlaced(before, regs, facts, r)
    ensures WellPlaced(before, Step(store, regs, e), facts, r)
  {
    var after := Step(store, regs, e);
    if ChooseIndex(store, regs, e.o).Ok? && r in e.written {
      RepairWrites(store, before, regs, e, images, facts, revisions, r);
    } else {
      assert Resolve(after, r) == Resolve(regs, r);
      if Resolve(regs, r) != Resolve(before, r) {
        RepairKeepsOthersSettled(store, regs, e, images, facts, revisions);
        var v :| r.tag in Authority(facts, v) && Ref(r.image, VersionTag(v)) in regs
          && Resolve(regs, r) == Some(regs[Ref(r.image, VersionTag(v))]);
        assert Resolve(after, Ref(r.image, VersionTag(v))) == Resolve(regs, Ref(r.image, VersionTag(v)));
      }
    }
  }

  /**
   In any order, finished or killed, authoritative repairs of any versions leave each
   floating tag untouched or on the index of the one version it belongs to.
   */
  lemma {:induction false} RepairsPlaceFloatingTags(
    store: Store, regs: Registries, es: seq<Effect>, images: set<string>, facts: Facts,
    revisions: Version -> string, r: Ref)
    requires forall e :: e in es ==> AuthoritativeRepair(store, e, images, facts, revisions)
    requires AllSettled(store, regs, images, revisions) && r.image in images && !r.tag.VersionTag?
    ensures AllSettled(store, History(store, regs, es), images, revisions)
    ensures WellPlaced(regs, History(store, regs, es), facts, r)
    ensures forall v, w :: r.tag in Authority(facts, v) && r.tag in Authority(facts, w) ==> v == w
  {
    forall v, w | r.tag in Authority(facts, v) && r.tag in Authority(facts, w) ensures v == w {
      AuthorityIsUnique(v, w, facts.distTags, facts.published, r.tag);
    }
    if es != [] {
      var init, last := es[..|es| - 1], es[|es| - 1];
      RepairsPlaceFloatingTags(store, regs, init, images, facts, revisions, r);
      RepairKeepsOthersSettled(store, History(store, regs, init), last, images, facts, revisions);
      RepairPlacesWell(store, regs, History(store, regs, init), last, images, facts, revisions, r);
    }
  }
}
