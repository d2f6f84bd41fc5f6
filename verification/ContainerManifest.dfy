/**
 Tagging a released image in every registry: `scripts/container-manifest.ts`.

 Manifests are content-addressed, so a manifest's platform and labels are functions of its
 digest and an index is its list of manifest digests: two indexes have the same digest
 exactly when they list the same manifests in the same order.
 */
module ContainerManifest {
  import opened Wrappers
  import opened ContainerTags

  type Manifest = string

  datatype Provenance = Provenance(version: Option<Version>, revision: Option<string>)

  datatype Store = Store(
    os: Manifest -> string,
    architecture: Manifest -> string,
    labels: Manifest -> Provenance)

  /** What a registry serves under a reference. */
  datatype Served = Index(manifests: seq<Manifest>) | Single(manifest: Manifest) | Unreadable(raw: string)

  datatype Ref = Ref(image: string, tag: Tag)

  type Registries = map<Ref, Served>

  /** What `parseArgs` and the tag plan settle before anything is read. */
  datatype Options = Options(
    version: Version, revision: string, plan: TagPlan, images: seq<string>, digests: seq<Manifest>)

  predicate Distinct<T(==)>(xs: seq<T>) {
    forall i, j :: 0 <= i < j < |xs| ==> xs[i] != xs[j]
  }

  ghost predicate ValidOptions(o: Options) {
    && |o.images| > 0 && Distinct(o.images)
    && |o.digests| == 2 && Distinct(o.digests)
    && Partitions(o.plan, o.version)
  }

  // ---- reading an index ---------------------------------------------------------

  /** The platform manifests of an index: attestations carry no architecture. */
  function Platforms(store: Store, index: seq<Manifest>): seq<Manifest> {
    Filter(index, m => store.architecture(m) != "unknown")
  }

  method ParseIndex(store: Store, index: seq<Manifest>) returns (platforms: seq<Manifest>)
    ensures platforms == Platforms(store, index)
  {
    platforms := [];
    for i := 0 to |index|
      invariant platforms + Platforms(store, index[i..]) == Platforms(store, index)
    {
      assert index[i..][1..] == index[i + 1..];
      if store.architecture(index[i]) != "unknown" {
        platforms := platforms + [index[i]];
      }
    }
  }

  function PlatformName(store: Store, m: Manifest): string {
    store.os(m) + "/" + store.architecture(m)
  }

  const AMD64 := "linux/amd64"
  const ARM64 := "linux/arm64"

  /** `platformProblem` finds nothing wrong: one manifest for each architecture, no third. */
  predicate GoodShape(store: Store, platforms: seq<Manifest>) {
    && |platforms| == 2
    && (   (PlatformName(store, platforms[0]) == AMD64 && PlatformName(store, platforms[1]) == ARM64)
        || (PlatformName(store, platforms[0]) == ARM64 && PlatformName(store, platforms[1]) == AMD64))
  }

  predicate IsOurRelease(p: Provenance, version: Version, revision: string) {
    p.version == Some(version) && p.revision == Some(revision)
  }

  // ---- survey and decision --------------------------------------------------------

  /** What one registry serves on the version tag; an index of the wrong shape stops the run. */
  function Survey(store: Store, regs: Registries, image: string, version: Version): Result<Option<seq<Manifest>>> {
    var ref := Ref(image, VersionTag(version));
    if ref !in regs then Ok(None)
    else match regs[ref]
      case Unreadable(_) => Err("not valid JSON")
      case Single(_) => Err("a single manifest, not an index")
      case Index(index) =>
        if GoodShape(store, Platforms(store, index)) then Ok(Some(index)) else Err("the wrong platforms")
  }

  /** The surveyed indexes in image order, or the first error. */
  function SurveyAll(store: Store, regs: Registries, images: seq<string>, version: Version): Result<seq<seq<Manifest>>> {
    if images == [] then Ok([])
    else
      var init := SurveyAll(store, regs, images[..|images| - 1], version);
      var last := Survey(store, regs, images[|images| - 1], version);
      if init.Err? then init
      else if last.Err? then Err(last.error)
      else if last.value.None? then init
      else Ok(init.value + [last.value.value])
  }

  predicate Agree<T(==)>(xs: seq<T>) {
    forall i :: 0 <= i < |xs| ==> xs[i] == xs[0]
  }

  /** The index a run writes on every planned tag, or why it stops before writing. */
  function ChooseIndex(store: Store, regs: Registries, o: Options): Result<seq<Manifest>> {
    var surveyed := SurveyAll(store, regs, o.images, o.version);
    if surveyed.Err? then Err(surveyed.error)
    else
      var present := surveyed.value;
      if present == [] then Ok(o.digests)
      else if !Agree(present) then Err("the registries disagree")
      else if multiset(Platforms(store, present[0])) == multiset(o.digests) then Ok(o.digests)
      else if forall m :: m in Platforms(store, present[0]) ==> IsOurRelease(store.labels(m), o.version, o.revision)
      then Ok(present[0])
      else Err("not published by this release")
  }

  /** The index an adopting run has to find in every registry; otherwise the first registry's answer decides. */
  function Adopted(store: Store, regs: Registries, o: Options): Option<Served> {
    var surveyed := SurveyAll(store, regs, o.images, o.version);
    if surveyed.Err? || surveyed.value == [] then None
    else
      var index := surveyed.value[0];
      if multiset(Platforms(store, index)) == multiset(o.digests) then None else Some(Index(index))
  }

  // ---- writing ----------------------------------------------------------------------

  /** Every reference a run writes, registry by registry, in plan order. */
  function WriteOrder(images: seq<string>, tags: seq<Tag>): seq<Ref> {
    if images == [] then []
    else WriteOrder(images[..|images| - 1], tags) + RefsOf(images[|images| - 1], tags)
  }

  function RefsOf(image: string, tags: seq<Tag>): (r: seq<Ref>)
    ensures |r| == |tags| && forall i :: 0 <= i < |r| ==> r[i] == Ref(image, tags[i])
  {
    seq(|tags|, i requires 0 <= i < |tags| => Ref(image, tags[i]))
  }

  ghost predicate Planned(o: Options, r: Ref) {
    r.image in o.images && r.tag in o.plan.tags
  }

  /** The tag writes of one run, one after the other. */
  function WriteAll(regs: Registries, refs: seq<Ref>, index: seq<Manifest>): Registries {
    if refs == [] then regs
    else WriteAll(regs, refs[..|refs| - 1], index)[refs[|refs| - 1] := Index(index)]
  }

  function Written(regs: Registries, refs: set<Ref>, index: seq<Manifest>): Registries {
    regs + map r | r in refs :: Index(index)
  }

  function SetOf<T>(xs: seq<T>): set<T> {
    set x | x in xs
  }

  /** An index with a manifest for both required platforms. */
  predicate CarriesBoth(store: Store, served: Option<Served>) {
    && served.Some? && served.value.Index?
    && HasPlatform(store, served.value.manifests, "linux", "amd64")
    && HasPlatform(store, served.value.manifests, "linux", "arm64")
  }

  predicate HasPlatform(store: Store, manifests: seq<Manifest>, os: string, architecture: string) {
    exists m :: m in Platforms(store, manifests) && store.os(m) == os && store.architecture(m) == architecture
  }

  function FirstTag(o: Options): Ref
    requires |o.images| > 0
  {
    Ref(o.images[0], VersionTag(o.version))
  }

  ghost predicate AllServe(o: Options, index: Served, regs: Registries) {
    forall r :: Planned(o, r) ==> Resolve(regs, r) == Some(index)
  }

  ghost predicate NoneMoved(o: Options, was: Registries, now: Registries) {
    forall r: Ref :: r in SetOf(WriteOrder(o.images, o.plan.mustNotMove)) ==> Resolve(now, r) == Resolve(was, r)
  }

  /**
   The three closing checks, each on what the registries serve when it is made: every planned tag
   is on the index, every tag that must not move is where it was, and the first registry's
   version tag carries both platforms.
   */
  ghost predicate PassesChecks(
    store: Store, o: Options, index: Served, was: Registries, fifth: Registries, sixth: Registries, seventh: Registries)
    requires |o.images| > 0
  {
    && AllServe(o, index, fifth) && NoneMoved(o, was, sixth)
    && CarriesBoth(store, Resolve(seventh, FirstTag(o)))
  }

  datatype Outcome =
    | Fatal                                // ended by a check
    | Killed                               // died between two tag writes
    | Done(index: Served)

  // ---- a run among others ------------------------------------------------------------

  /**
   What anybody else makes of the registries at the `k`-th moment of a run: 0 between survey and
   snapshot, `2i + 1` before the create in registry `i`, `2i + 2` between that create and the
   reading of its digest, and three moments more before the three closing checks.
   */
  type Others = (nat, Registries) -> Registries

  /** How far the create loop got: what every registry has to serve, the writes so far, and why it stopped. */
  datatype Creation = Creation(registries: Registries, expected: Option<Served>, writes: nat, stop: Option<Outcome>)

  function Smaller(a: nat, b: nat): nat {
    if a < b then a else b
  }

  /** One round of the loop; the run lives for `budget` tag writes. */
  function CreateOne(o: Options, index: seq<Manifest>, others: Others, budget: nat, c: Creation, i: nat): Creation
    requires i < |o.images| && c.writes <= budget
  {
    var refs := RefsOf(o.images[i], o.plan.tags);
    var more := Smaller(budget - c.writes, |refs|);
    var wrote := WriteAll(others(2 * i + 1, c.registries), refs[..more], index);
    if more < |refs| then Creation(wrote, c.expected, budget, Some(Killed))
    else ReadDigest(o, others, Creation(wrote, c.expected, c.writes + more, None), i)
  }

  /** The digest of the version tag: the first one read is what the others have to be, unless one was adopted. */
  function ReadDigest(o: Options, others: Others, c: Creation, i: nat): Creation
    requires i < |o.images|
  {
    var now := others(2 * i + 2, c.registries);
    var served := Resolve(now, Ref(o.images[i], VersionTag(o.version)));
    if served.None? || (c.expected.Some? && served != c.expected) then c.(registries := now, stop := Some(Fatal))
    else c.(registries := now, expected := served)
  }

  /** The loop from the `i`-th registry on. */
  function CreateFrom(o: Options, index: seq<Manifest>, others: Others, budget: nat, c: Creation, i: nat): (d: Creation)
    requires i <= |o.images| && c.writes <= budget
    ensures c.stop.None? && d.stop.Some? ==> !d.stop.value.Done?
    decreases |o.images| - i
  {
    if i == |o.images| || c.stop.Some? then c
    else
      CreateFrom(o, index, others, budget, CreateOne(o, index, others, budget, c, i), i + 1)
  }

  datatype Ended = Ended(registries: Registries, outcome: Outcome)

  /** The run from its snapshot on. */
  ghost function Published(
    store: Store, o: Options, index: seq<Manifest>, expected: Option<Served>, regs: Registries, others: Others, budget: nat): Ended
    requires |o.images| > 0
  {
    var c := CreateFrom(o, index, others, budget, Creation(regs, expected, 0, None), 0);
    if c.stop.Some? then Ended(c.registries, c.stop.value)
    else if c.expected.None? then Ended(c.registries, Fatal)
    else Closed(store, o, c.expected.value, regs, others, c.registries)
  }

  ghost function Closed(store: Store, o: Options, index: Served, was: Registries, others: Others, regs: Registries): Ended
    requires |o.images| > 0
  {
    var n := 2 * |o.images|;
    var fifth := others(n + 1, regs);
    var sixth := others(n + 2, fifth);
    var seventh := others(n + 3, sixth);
    if !AllServe(o, index, fifth) then Ended(fifth, Fatal)
    else if !NoneMoved(o, was, sixth) then Ended(sixth, Fatal)
    else Ended(seventh, if CarriesBoth(store, Resolve(seventh, FirstTag(o))) then Done(index) else Fatal)
  }

  /** The whole script. */
  ghost function Performed(store: Store, o: Options, regs: Registries, others: Others, budget: nat): Ended
    requires |o.images| > 0
  {
    var decision := ChooseIndex(store, regs, o);
    if decision.Err? then Ended(regs, Fatal)
    else Published(store, o, decision.value, Adopted(store, regs, o), others(0, regs), others, budget)
  }

  /** A run of the script against the registries. */
  class ManifestRun {
    const store: Store
    var registries: Registries

    constructor (store: Store, registries: Registries)
      ensures this.store == store && this.registries == registries
    {
      this.store, this.registries := store, registries;
    }

    method SurveyImages(o: Options) returns (r: Result<seq<seq<Manifest>>>)
      ensures r == SurveyAll(store, registries, o.images, o.version)
    {
      var present := [];
      for i := 0 to |o.images|
        invariant SurveyAll(store, registries, o.images[..i], o.version) == Ok(present)
      {
        assert o.images[..i + 1][..i] == o.images[..i];
        var state := Survey(store, registries, o.images[i], o.version);
        if state.Err? {
          SurveyStops(store, registries, o.images, o.version, i + 1);
          return Err(state.error);
        }
        if state.value.Some? {
          present := present + [state.value.value];
        }
      }
      assert o.images[..|o.images|] == o.images;
      return Ok(present);
    }

    /** One create call: every tag of one registry, dying after `budget` writes. */
    method CreateIn(image: string, tags: seq<Tag>, index: seq<Manifest>, budget: nat) returns (writes: nat)
      modifies this`registries
      ensures writes == if budget < |tags| then budget else |tags|
      ensures registries == WriteAll(old(registries), RefsOf(image, tags)[..writes], index)
    {
      ghost var refs := RefsOf(image, tags);
      writes := 0;
      while writes < |tags| && writes < budget
        invariant writes <= |tags| && writes <= budget
        invariant registries == WriteAll(old(registries), refs[..writes], index)
      {
        assert refs[..writes + 1][..writes] == refs[..writes];
        registries := registries[Ref(image, tags[writes]) := Index(index)];
        writes := writes + 1;
      }
    }

    /** The digest one registry serves behind its create; false ends the run. */
    method ReadOne(o: Options, others: Others, i: nat, expected: Option<Served>, ghost writes: nat)
      returns (indexDigest: Option<Served>, stop: Option<Outcome>)
      requires i < |o.images|
      modifies this`registries
      ensures Creation(registries, indexDigest, writes, stop)
           == ReadDigest(o, others, Creation(old(registries), expected, writes, None), i)
    {
      registries := others(2 * i + 2, registries);
      var resolved := Resolve(registries, Ref(o.images[i], VersionTag(o.version)));
      if resolved.None? || (expected.Some? && resolved != expected) {
        return expected, Some(Fatal);
      }
      return resolved, None;
    }

    /** One round: the create in one registry and the digest behind it. */
    method CreateNext(o: Options, index: seq<Manifest>, others: Others, budget: nat, i: nat, expected: Option<Served>, before: nat)
      returns (indexDigest: Option<Served>, writes: nat, stop: Option<Outcome>)
      requires i < |o.images| && before <= budget
      modifies this`registries
      ensures Creation(registries, indexDigest, writes, stop)
           == CreateOne(o, index, others, budget, Creation(old(registries), expected, before, None), i)
    {
      registries := others(2 * i + 1, registries);
      var more := CreateIn(o.images[i], o.plan.tags, index, budget - before);
      writes := before + more;
      if more < |o.plan.tags| {
        return expected, writes, Some(Killed);
      }
      indexDigest, stop := ReadOne(o, others, i, expected, writes);
    }

    /** Writes every planned tag, registry by registry, and reads each registry's digest back. */
    method Create(o: Options, index: seq<Manifest>, expected: Option<Served>, others: Others, budget: nat)
      returns (indexDigest: Option<Served>, stop: Option<Outcome>)
      modifies this`registries
      ensures var c := CreateFrom(o, index, others, budget, Creation(old(registries), expected, 0, None), 0);
        registries == c.registries && indexDigest == c.expected && stop == c.stop
    {
      indexDigest, stop := expected, None;
      var writes: nat := 0;
      ghost var start := Creation(registries, expected, 0, None);
      ghost var c := start;
      for i := 0 to |o.images|
        invariant stop.None? && writes <= budget && c == Creation(registries, indexDigest, writes, None)
        invariant CreateFrom(o, index, others, budget, c, i) == CreateFrom(o, index, others, budget, start, 0)
      {
        c := CreateOne(o, index, others, budget, c, i);
        indexDigest, writes, stop := CreateNext(o, index, others, budget, i, indexDigest, writes);
        if stop.Some? {
          return;
        }
      }
    }

    /** Every planned tag in every registry resolves to the index. */
    method ReadBack(o: Options, index: Served) returns (ok: bool)
      ensures ok <==> AllServe(o, index, registries)
    {
      for i := 0 to |o.images|
        invariant forall r: Ref :: r.image in o.images[..i] && r.tag in o.plan.tags ==> Resolve(registries, r) == Some(index)
      {
        for j := 0 to |o.plan.tags|
          invariant forall t :: t in o.plan.tags[..j] ==> Resolve(registries, Ref(o.images[i], t)) == Some(index)
        {
          var ref := Ref(o.images[i], o.plan.tags[j]);
          if Resolve(registries, ref) != Some(index) {
            assert Planned(o, ref);
            return false;
          }
        }
      }
      return true;
    }

    /** The floating tags this run is not writing, as they are now. */
    method Snapshot(o: Options) returns (before: map<Ref, Option<Served>>)
      ensures before.Keys == SetOf(WriteOrder(o.images, o.plan.mustNotMove))
      ensures forall r :: r in before ==> before[r] == Resolve(registries, r)
    {
      var refs := WriteOrder(o.images, o.plan.mustNotMove);
      before := map[];
      for i := 0 to |refs|
        invariant before.Keys == SetOf(refs[..i])
        invariant forall r :: r in before ==> before[r] == Resolve(registries, r)
      {
        before := before[refs[i] := Resolve(registries, refs[i])];
      }
    }

    method Unmoved(o: Options, before: map<Ref, Option<Served>>, ghost was: Registries) returns (ok: bool)
      requires before.Keys == SetOf(WriteOrder(o.images, o.plan.mustNotMove))
      requires forall r :: r in before ==> before[r] == Resolve(was, r)
      ensures ok <==> NoneMoved(o, was, registries)
    {
      var refs := WriteOrder(o.images, o.plan.mustNotMove);
      for i := 0 to |refs|
        invariant forall k :: 0 <= k < i ==> Resolve(was, refs[k]) == Resolve(registries, refs[k])
      {
        assert refs[i] in before;
        if Resolve(registries, refs[i]) != before[refs[i]] {
          return false;
        }
      }
      return true;
    }

    /** Lines 207-262: the index to write, or the reason to stop. */
    method Choose(o: Options) returns (choice: Result<seq<Manifest>>, expectedIndex: Option<Served>)
      ensures choice.Ok? == ChooseIndex(store, registries, o).Ok?
      ensures choice.Ok? ==> choice == ChooseIndex(store, registries, o) && expectedIndex == Adopted(store, registries, o)
    {
      var surveyed := SurveyImages(o);
      if surveyed.Err? {
        return Err(surveyed.error), None;
      }
      var present := surveyed.value;
      if present == [] {
        return Ok(o.digests), None;
      }
      if !Agree(present) {
        return Err("the registries disagree"), None;
      }
      var published := ParseIndex(store, present[0]);
      if multiset(published) == multiset(o.digests) {
        return Ok(o.digests), None;
      }
      var ours := AllOurs(store, published, o.version, o.revision);
      if !ours {
        return Err("not published by this release"), None;
      }
      return Ok(present[0]), Some(Index(present[0]));
    }

    /** Lines 355-367: both required platforms in what a tag serves. */
    method Carries(served: Option<Served>) returns (ok: bool)
      ensures ok == CarriesBoth(store, served)
    {
      if served.None? || !served.value.Index? {
        return false;
      }
      var platforms := ParseIndex(store, served.value.manifests);
      var amd64 := PlatformDigest(store, platforms, "linux", "amd64");
      var arm64 := PlatformDigest(store, platforms, "linux", "arm64");
      return amd64.Some? && arm64.Some?;
    }

    /** Lines 321-367: the closing checks. */
    method Close(o: Options, index: Served, others: Others, before: map<Ref, Option<Served>>, ghost was: Registries)
      returns (outcome: Outcome)
      requires |o.images| > 0 && before.Keys == SetOf(WriteOrder(o.images, o.plan.mustNotMove))
      requires forall r :: r in before ==> before[r] == Resolve(was, r)
      modifies this`registries
      ensures Ended(registries, outcome) == Closed(store, o, index, was, others, old(registries))
    {
      var n := 2 * |o.images|;
      registries := others(n + 1, registries);
      var served := ReadBack(o, index);
      if !served {
        return Fatal;
      }
      registries := others(n + 2, registries);
      var unmoved := Unmoved(o, before, was);
      if !unmoved {
        return Fatal;
      }
      registries := others(n + 3, registries);
      var carries := Carries(Resolve(registries, FirstTag(o)));
      return if carries then Done(index) else Fatal;
    }

    /** Lines 264-367. */
    method Publish(o: Options, index: seq<Manifest>, expected: Option<Served>, others: Others, budget: nat)
      returns (outcome: Outcome)
      requires |o.images| > 0
      modifies this`registries
      ensures Ended(registries, outcome) == Published(store, o, index, expected, old(registries), others, budget)
    {
      ghost var was := registries;
      var before := Snapshot(o);
      var indexDigest, stop := Create(o, index, expected, others, budget);
      if stop.Some? {
        return stop.value;
      }
      if indexDigest.None? {
        return Fatal;
      }
      outcome := Close(o, indexDigest.value, others, before, was);
    }

    /** The whole script. */
    method Perform(o: Options, others: Others, budget: nat) returns (outcome: Outcome)
      requires |o.images| > 0
      modifies this`registries
      ensures Ended(registries, outcome) == Performed(store, o, old(registries), others, budget)
    {
      var choice, expectedIndex := Choose(o);
      if choice.Err? {
        return Fatal;
      }
      registries := others(0, registries);
      outcome := Publish(o, choice.value, expectedIndex, others, budget);
    }
  }

  /** The first manifest listed for a platform. */
  method PlatformDigest(store: Store, platforms: seq<Manifest>, os: string, architecture: string) returns (digest: Option<Manifest>)
    ensures digest.Some? <==> exists m :: m in platforms && store.os(m) == os && store.architecture(m) == architecture
    ensures digest.Some? ==> digest.value in platforms && store.os(digest.value) == os && store.architecture(digest.value) == architecture
  {
    for i := 0 to |platforms|
      invariant forall k :: 0 <= k < i ==> store.os(platforms[k]) != os || store.architecture(platforms[k]) != architecture
    {
      if store.os(platforms[i]) == os && store.architecture(platforms[i]) == architecture {
        return Some(platforms[i]);
      }
    }
    return None;
  }

  function Resolve(regs: Registries, r: Ref): Option<Served> {
    if r in regs then Some(regs[r]) else None
  }

  lemma {:induction false} WriteAllConcat(regs: Registries, xs: seq<Ref>, ys: seq<Ref>, index: seq<Manifest>)
    ensures WriteAll(WriteAll(regs, xs, index), ys, index) == WriteAll(regs, xs + ys, index)
  {
    if ys == [] {
      assert xs + ys == xs;
    } else {
      var n := |ys| - 1;
      WriteAllConcat(regs, xs, ys[..n], index);
      assert (xs + ys)[..|xs| + n] == xs + ys[..n];
    }
  }

  /** After the writes `done`, `more` of the next ones. */
  lemma WriteAllMore(regs: Registries, all: seq<Ref>, done: seq<Ref>, next: seq<Ref>, more: nat, index: seq<Manifest>)
    requires done + next <= all && more <= |next|
    ensures WriteAll(WriteAll(regs, done, index), next[..more], index) == WriteAll(regs, all[..|done| + more], index)
  {
    assert all[..|done| + |next|] == done + next;
    assert all[..|done| + more] == done + next[..more];
    WriteAllConcat(regs, done, next[..more], index);
  }

  lemma WrittenOneMore(regs: Registries, refs: seq<Ref>, r: Ref, index: seq<Manifest>)
    ensures Written(regs, SetOf(refs + [r]), index) == Written(regs, SetOf(refs), index)[r := Index(index)]
  {
    assert SetOf(refs + [r]) == SetOf(refs) + {r};
  }

  lemma {:induction false} WriteAllIsWritten(regs: Registries, refs: seq<Ref>, index: seq<Manifest>)
    ensures WriteAll(regs, refs, index) == Written(regs, SetOf(refs), index)
  {
    if refs != [] {
      var n := |refs| - 1;
      WriteAllIsWritten(regs, refs[..n], index);
      WrittenOneMore(regs, refs[..n], refs[n], index);
      assert refs == refs[..n] + [refs[n]];
    }
  }

  /** Every architecture is checked, not just the first one listed. */
  method AllOurs(store: Store, published: seq<Manifest>, version: Version, revision: string) returns (ok: bool)
    ensures ok <==> forall m :: m in published ==> IsOurRelease(store.labels(m), version, revision)
  {
    for i := 0 to |published|
      invariant forall k :: 0 <= k < i ==> IsOurRelease(store.labels(published[k]), version, revision)
    {
      if !IsOurRelease(store.labels(published[i]), version, revision) {
        return false;
      }
    }
    return true;
  }

  lemma {:induction false} WriteOrderPrefix(images: seq<string>, tags: seq<Tag>, i: nat)
    requires i < |images|
    ensures WriteOrder(images[..i + 1], tags) == WriteOrder(images[..i], tags) + RefsOf(images[i], tags)
    ensures WriteOrder(images[..i + 1], tags) <= WriteOrder(images, tags)
    decreases |images|
  {
    assert images[..i + 1][..i] == images[..i];
    var n := |images| - 1;
    if i < n {
      WriteOrderPrefix(images[..n], tags, i);
      assert images[..n][..i + 1] == images[..i + 1];
    } else {
      assert images[..i + 1] == images;
    }
  }

  lemma {:induction false} WriteOrderIsPlanned(images: seq<string>, tags: seq<Tag>)
    ensures forall r: Ref :: r in WriteOrder(images, tags) <==> r.image in images && r.tag in tags
  {
    if images != [] {
      var n := |images| - 1;
      WriteOrderIsPlanned(images[..n], tags);
      assert images == images[..n] + [images[n]];
    }
  }

  lemma {:induction false} SurveyStops(
    store: Store, regs: Registries, images: seq<string>, version: Version, i: nat)
    requires i <= |images| && SurveyAll(store, regs, images[..i], version).Err?
    ensures SurveyAll(store, regs, images, version) == SurveyAll(store, regs, images[..i], version)
    decreases |images| - i
  {
    if i == |images| {
      assert images[..i] == images;
    } else {
      assert images[..i + 1][..i] == images[..i];
      SurveyStops(store, regs, images, version, i + 1);
    }
  }
}
