/**
 Which tags a container run writes and which it must leave alone: `scripts/container-tags.ts`.

 Tags are kept apart by constructors. A version is one the pattern of line 14 accepts, which
 bars leading zeros, so equal numbers mean equal spelling.
 */
module ContainerTags {
  import opened Wrappers

  datatype Version = Version(major: nat, minor: nat, patch: nat, prerelease: Option<string>)

  datatype Tag =
    | VersionTag(version: Version)
    | Latest
    | Next
    | Series(major: nat, minor: nat)
    | Other(name: string)

  datatype TagPlan = TagPlan(stable: bool, series: Tag, tags: seq<Tag>, mustNotMove: seq<Tag>)

  function SeriesOf(v: Version): Tag {
    Series(v.major, v.minor)
  }

  function FloatingUniverse(series: Tag): seq<Tag> {
    [Latest, Next, series]
  }

  /** `xs.filter(keep)`, order kept. */
  function Filter<T(!new)>(xs: seq<T>, keep: T -> bool): (r: seq<T>)
    ensures forall x :: x in r <==> x in xs && keep(x)
    ensures |r| <= |xs|
  {
    if xs == [] then [] else (if keep(xs[0]) then [xs[0]] else []) + Filter(xs[1..], keep)
  }

  function WithMustNotMove(stable: bool, series: Tag, tags: seq<Tag>): TagPlan {
    TagPlan(stable, series, tags, Filter(FloatingUniverse(series), t => t !in tags))
  }

  /** None stands for a string the version pattern does not match. */
  function PlanTags(version: Option<Version>, distTag: string): Result<TagPlan> {
    if version.None? then Err("not a version this workflow publishes")
    else
      var v := version.value;
      var stable := v.prerelease.None?;
      if stable && distTag != "latest" then Err("a stable version with another dist-tag")
      else if !stable && distTag == "latest" then Err("a prerelease must not carry latest")
      else
        var tags := [VersionTag(v)]
          + (if stable then [SeriesOf(v)] else [])
          + (if distTag == "latest" then [Latest] else if distTag == "next" then [Next] else []);
        Ok(WithMustNotMove(stable, SeriesOf(v), tags))
  }

  function RestrictFloating(plan: TagPlan, floating: seq<Tag>): Result<TagPlan>
    requires |plan.tags| > 0
  {
    var allowed := plan.tags[1..];
    if exists t :: t in floating && t !in FloatingUniverse(plan.series) then Err("not a floating tag")
    else if exists t :: t in floating && t !in allowed then Err("not a tag this version may carry")
    else Ok(WithMustNotMove(plan.stable, plan.series, [plan.tags[0]] + Filter(allowed, t => t in floating)))
  }

  // ---- every plan partitions the floating tags --------------------------------------

  /** The version tag first, then floating tags; with `mustNotMove`, each one exactly once. */
  predicate Partitions(plan: TagPlan, v: Version) {
    && plan.series == SeriesOf(v)
    && |plan.tags| > 0 && plan.tags[0] == VersionTag(v)
    && multiset(plan.tags[1..]) + multiset(plan.mustNotMove) == multiset{Latest, Next, SeriesOf(v)}
  }

  function KeptIf(keep: bool, t: Tag): seq<Tag> {
    if keep then [t] else []
  }

  lemma FilteredUniverse(series: Tag, keep: Tag -> bool)
    ensures Filter(FloatingUniverse(series), keep)
         == KeptIf(keep(Latest), Latest) + KeptIf(keep(Next), Next) + KeptIf(keep(series), series)
  {
    assert FloatingUniverse(series) == [Latest] + ([Next] + ([series] + []));
    FilterCons(Latest, [Next] + ([series] + []), keep);
    FilterCons(Next, [series] + [], keep);
    FilterCons(series, [], keep);
    KeptRegroup(KeptIf(keep(Latest), Latest), KeptIf(keep(Next), Next), KeptIf(keep(series), series));
  }

  lemma FilterCons(t: Tag, more: seq<Tag>, keep: Tag -> bool)
    ensures Filter([t] + more, keep) == KeptIf(keep(t), t) + Filter(more, keep)
  {
    assert ([t] + more)[1..] == more;
  }

  lemma KeptRegroup(a: seq<Tag>, b: seq<Tag>, c: seq<Tag>)
    ensures a + (b + (c + [])) == a + b + c
  {
  }

  lemma KeptCount(a: bool, b: bool, c: bool, series: Tag, written: multiset<Tag>)
    requires series.Series? && written <= multiset{Latest, Next, series}
    requires a == (Latest !in written) && b == (Next !in written) && c == (series !in written)
    ensures written + multiset(KeptIf(a, Latest) + KeptIf(b, Next) + KeptIf(c, series))
         == multiset{Latest, Next, series}
  {
    assert multiset{Latest, Next, series}[Latest] == 1;
    assert multiset{Latest, Next, series}[Next] == 1;
    assert multiset{Latest, Next, series}[series] == 1;
    assert multiset(KeptIf(a, Latest) + KeptIf(b, Next) + KeptIf(c, series))
        == multiset(KeptIf(a, Latest)) + multiset(KeptIf(b, Next)) + multiset(KeptIf(c, series));
  }

  /** `mustNotMove` completes any set of tags written to the whole floating universe. */
  lemma WithMustNotMovePartitions(stable: bool, series: Tag, tags: seq<Tag>, written: seq<Tag>)
    requires series.Series? && |tags| > 0 && tags[0].VersionTag? && tags == [tags[0]] + written
    requires multiset(written) <= multiset{Latest, Next, series}
    ensures multiset(written) + multiset(WithMustNotMove(stable, series, tags).mustNotMove)
         == multiset{Latest, Next, series}
  {
    FilteredUniverse(series, t => t !in tags);
    KeptCount(Latest !in tags, Next !in tags, series !in tags, series, multiset(written));
  }

  lemma PlannedFloating(stable: bool, next: bool, series: Tag)
    requires series.Series? && !(stable && next)
    ensures multiset(KeptIf(stable, series) + KeptIf(stable, Latest) + KeptIf(next, Next))
         <= multiset{Latest, Next, series}
  {
    assert KeptIf(stable, series) + KeptIf(stable, Latest) + KeptIf(next, Next)
        == if stable then [series, Latest] else KeptIf(next, Next);
  }

  /** The tags a plan writes, as one expression. */
  lemma PlannedTags(version: Option<Version>, distTag: string)
    requires PlanTags(version, distTag).Ok?
    ensures version.Some?
    ensures var v := version.value;
      var stable := v.prerelease.None?;
      && (stable <==> distTag == "latest")
      && PlanTags(version, distTag).value == WithMustNotMove(stable, SeriesOf(v),
           [VersionTag(v)] + (KeptIf(stable, SeriesOf(v)) + KeptIf(stable, Latest) + KeptIf(distTag == "next", Next)))
  {
    var v := version.value;
    var stable := v.prerelease.None?;
    var dist := if distTag == "latest" then [Latest] else if distTag == "next" then [Next] else [];
    assert dist == KeptIf(stable, Latest) + KeptIf(distTag == "next", Next);
    assert [VersionTag(v)] + (KeptIf(stable, SeriesOf(v)) + KeptIf(stable, Latest) + KeptIf(distTag == "next", Next))
        == [VersionTag(v)] + KeptIf(stable, SeriesOf(v)) + dist;
  }

  /** A plan leaves no floating tag undecided. */
  lemma PlanPartitions(version: Option<Version>, distTag: string)
    requires PlanTags(version, distTag).Ok?
    ensures version.Some? && Partitions(PlanTags(version, distTag).value, version.value)
  {
    PlannedTags(version, distTag);
    var v := version.value;
    var stable := v.prerelease.None?;
    var written := KeptIf(stable, SeriesOf(v)) + KeptIf(stable, Latest) + KeptIf(distTag == "next", Next);
    var tags := [VersionTag(v)] + written;
    PlannedFloating(stable, distTag == "next", SeriesOf(v));
    WithMustNotMovePartitions(stable, SeriesOf(v), tags, written);
    assert tags[1..] == written && tags[0] == VersionTag(v);
    assert Partitions(WithMustNotMove(stable, SeriesOf(v), tags), v);
  }

  /** Only stable releases take `latest` or a series; `next` follows the dist-tag. */
  lemma PlanCarries(version: Option<Version>, distTag: string)
    requires PlanTags(version, distTag).Ok?
    ensures var plan := PlanTags(version, distTag).value;
      && version.Some? && plan.stable == version.value.prerelease.None?
      && (Latest in plan.tags <==> plan.stable)
      && (plan.series in plan.tags <==> plan.stable)
      && (Next in plan.tags <==> distTag == "next")
  {
    PlannedTags(version, distTag);
  }

  lemma FilterIsSubset<T(!new)>(xs: seq<T>, keep: T -> bool)
    ensures multiset(Filter(xs, keep)) <= multiset(xs)
  {
    if xs != [] {
      FilterIsSubset(xs[1..], keep);
      assert xs == [xs[0]] + xs[1..];
    }
  }

  /** Cutting the plan down moves tags from `tags` to `mustNotMove` and loses none. */
  lemma RestrictPartitions(plan: TagPlan, v: Version, floating: seq<Tag>)
    requires Partitions(plan, v)
    ensures RestrictFloating(plan, floating).Ok? <==> forall t :: t in floating ==> t in plan.tags[1..]
    ensures RestrictFloating(plan, floating).Ok? ==>
      var cut := RestrictFloating(plan, floating).value;
      && Partitions(cut, v) && cut.stable == plan.stable
      && (forall t :: t in cut.tags[1..] <==> t in floating)
  {
    var allowed := plan.tags[1..];
    forall t | t in allowed ensures t in FloatingUniverse(plan.series) {
      assert t in multiset(allowed) + multiset(plan.mustNotMove);
    }
    if RestrictFloating(plan, floating).Ok? {
      var cut := RestrictFloating(plan, floating).value;
      var written := Filter(allowed, t => t in floating);
      assert cut.tags[1..] == written;
      FilterIsSubset(allowed, t => t in floating);
      WithMustNotMovePartitions(plan.stable, plan.series, cut.tags, written);
    }
  }

  // ---- which floating tags npm proves to be this version's ---------------------------

  datatype DistTags = DistTags(latest: Option<Version>, next: Option<Version>)

  function ComparePatch(a: Version, b: Version): int {
    a.patch - b.patch
  }

  /** The reduction of lines 142-144: the first candidate no later one exceeds. */
  function Best(candidates: seq<Version>): Option<Version> {
    if candidates == [] then None
    else
      var last := candidates[|candidates| - 1];
      var best := Best(candidates[..|candidates| - 1]);
      if best.None? || ComparePatch(last, best.value) > 0 then Some(last) else best
  }

  predicate InSeries(v: Version, series: Tag) {
    v.prerelease.None? && SeriesOf(v) == series
  }

  function AuthoritativeFloating(
    version: Version, series: Tag, distTags: DistTags, publishedVersions: seq<Version>): seq<Tag>
  {
    var newest := Best(Filter(publishedVersions, v => InSeries(v, series)));
    KeptIf(distTags.latest == Some(version), Latest)
    + KeptIf(distTags.next == Some(version), Next)
    + KeptIf(version.prerelease.None? && newest == Some(version), series)
  }

  lemma {:induction false} BestIsGreatest(candidates: seq<Version>)
    ensures Best(candidates).None? <==> candidates == []
    ensures Best(candidates).Some? ==> Best(candidates).value in candidates
    ensures forall c :: c in candidates ==> c.patch <= Best(candidates).value.patch
  {
    if candidates != [] {
      BestIsGreatest(candidates[..|candidates| - 1]);
      assert candidates == candidates[..|candidates| - 1] + [candidates[|candidates| - 1]];
    }
  }

  /** The series belongs to exactly the newest published stable patch in it. */
  lemma SeriesIsNewest(version: Version, distTags: DistTags, published: seq<Version>)
    ensures SeriesOf(version) in AuthoritativeFloating(version, SeriesOf(version), distTags, published) <==>
      && version.prerelease.None? && version in published
      && forall w :: w in published && InSeries(w, SeriesOf(version)) ==> w.patch <= version.patch
  {
    var candidates := Filter(published, v => InSeries(v, SeriesOf(version)));
    BestIsGreatest(candidates);
    if version.prerelease.None? && version in published {
      assert version in candidates;
      var newest := Best(candidates).value;
      assert newest.patch == version.patch ==> newest == version;
    }
  }

  /** For one set of npm facts no floating tag belongs to two versions. */
  lemma AuthorityIsUnique(v: Version, w: Version, distTags: DistTags, published: seq<Version>, t: Tag)
    requires t in AuthoritativeFloating(v, SeriesOf(v), distTags, published)
    requires t in AuthoritativeFloating(w, SeriesOf(w), distTags, published)
    ensures v == w
  {
  }
}
