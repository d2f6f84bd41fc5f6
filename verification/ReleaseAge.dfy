/**
 The release-age gate of `scripts/dev-maintenance.ts`: which published version of a
 dependency is old enough to be proposed, and how the answer moves with time.
 Times are milliseconds; `Date.parse` is a function that may fail.
 */
module ReleaseAge {
  import opened Wrappers
  import opened Text

  datatype Semver = Semver(major: nat, minor: nat, patch: nat)

  predicate IsBuildChar(c: char) {
    IsDigit(c) || 'A' <= c <= 'Z' || 'a' <= c <= 'z' || c == '.' || c == '-'
  }

  predicate IsBuildSuffix(s: string) {
    s == "" || (|s| > 1 && s[0] == '+' && forall i :: 1 <= i < |s| ==> IsBuildChar(s[i]))
  }

  function ParseStableSemver(version: string): Option<Semver> {
    var t := Trim(version);
    var v := TripleField(if t != "" && t[0] == 'v' then t[1..] else t);
    if v.None? || !IsBuildSuffix(v.value.rest) then None
    else Some(Semver(Value(v.value.major), Value(v.value.minor), Value(v.value.patch)))
  }

  function Compare(left: Semver, right: Semver): int {
    if left.major != right.major then left.major - right.major
    else if left.minor != right.minor then left.minor - right.minor
    else left.patch - right.patch
  }

  /** How version strings and timestamps are read. */
  datatype Reader = Reader(parse: string -> Option<Semver>, clock: string -> Option<int>)

  /** The empty string is no version and no date. */
  predicate Sound(rd: Reader) {
    rd.parse("").None? && rd.clock("").None?
  }

  /** The source's reader: its own version pattern, and whatever `Date.parse` does. */
  function SourceReader(dateParse: string -> Option<int>): (rd: Reader)
    requires dateParse("").None?
    ensures Sound(rd)
  {
    assert ParseStableSemver("").None?;
    Reader(s => ParseStableSemver(s), dateParse)
  }

  /** `Object.entries` of the publish times: version, time, in key order. */
  type Times = seq<(string, string)>

  predicate DistinctKeys(times: Times) {
    forall i, j :: 0 <= i < j < |times| ==> times[i].0 != times[j].0
  }

  function Lookup(times: Times, version: string): Option<string> {
    if times == [] then None
    else if times[|times| - 1].0 == version then Some(times[|times| - 1].1)
    else Lookup(times[..|times| - 1], version)
  }

  datatype Reason = MissingVersion | NoAgedVersion | NonSemverCurrent | MetadataUnavailable | TooNew

  datatype Age = Age(eligible: bool, publishedAt: Option<string>, nextEligibleAt: Option<int>, reason: Option<Reason>)

  datatype Selection = Selection(
    target: Option<string>, publishedAt: Option<string>, nextEligibleAt: Option<int>, reason: Option<Reason>)

  const MS_PER_DAY := 86_400_000

  function MinimumAge(days: int): nat {
    if days < 0 then 0 else days * MS_PER_DAY
  }

  predicate IsFiniteTimestamp(t: Option<int>) {
    t.Some? && t.value > 0
  }

  /** `evaluatePackageVersionReleaseAge`. */
  function Evaluate(rd: Reader, version: string, times: Option<Times>, now: int, days: int, bypass: bool): Age {
    if version == "" then Age(false, None, None, Some(MissingVersion))
    else if bypass then Age(true, if times.Some? then Lookup(times.value, version) else None, None, None)
    else if times.None? then Age(false, None, None, Some(MetadataUnavailable))
    else
      var publishedAt := Lookup(times.value, version);
      var at := if publishedAt.Some? then rd.clock(publishedAt.value) else None;
      if publishedAt.None? || publishedAt.value == "" || !IsFiniteTimestamp(at) then
        Age(false, None, None, Some(MissingVersion))
      else
        var eligibleAt := at.value + MinimumAge(days);
        if eligibleAt > now then Age(false, publishedAt, Some(eligibleAt), Some(TooNew))
        else Age(true, publishedAt, None, None)
  }

  // ---- the scan ------------------------------------------------------------------------

  datatype Best = Best(version: string, parsed: Semver, publishedAt: string)

  datatype Scan = Scan(best: Option<Best>, next: Option<int>)

  type Entry = (string, string)

  /** A stable version above the current one with a usable publish time. */
  predicate IsCandidate(rd: Reader, current: Semver, e: Entry) {
    rd.parse(e.0).Some? && Compare(rd.parse(e.0).value, current) > 0 && IsFiniteTimestamp(rd.clock(e.1))
  }

  function ScanEntry(rd: Reader, current: Semver, now: int, age: nat, s: Scan, e: Entry): Scan {
    if !IsCandidate(rd, current, e) then s
    else
      var parsed, at := rd.parse(e.0).value, rd.clock(e.1).value;
      if at <= now - age then
        if s.best.None? || Compare(parsed, s.best.value.parsed) > 0 then s.(best := Some(Best(e.0, parsed, e.1))) else s
      else if at + age > now && (s.next.None? || at + age < s.next.value) then s.(next := Some(at + age))
      else s
  }

  function ScanAll(rd: Reader, current: Semver, now: int, age: nat, times: Times): Scan {
    if times == [] then Scan(None, None)
    else ScanEntry(rd, current, now, age, ScanAll(rd, current, now, age, times[..|times| - 1]), times[|times| - 1])
  }

  function Choose(
    rd: Reader, currentVersion: string, latestVersion: string, times: Option<Times>, now: int, days: int, bypass: bool)
    : Selection
  {
    if currentVersion == "" || latestVersion == "" then Selection(None, None, None, Some(MissingVersion))
    else if currentVersion == latestVersion then Selection(None, None, None, Some(NoAgedVersion))
    else if bypass then
      Selection(Some(latestVersion), if times.Some? then Lookup(times.value, latestVersion) else None, None, None)
    else
      var current := rd.parse(currentVersion);
      if current.None? then Selection(None, None, None, Some(NonSemverCurrent))
      else if times.None? then Selection(None, None, None, Some(MetadataUnavailable))
      else
        var s := ScanAll(rd, current.value, now, MinimumAge(days), times.value);
        if s.best.Some? && s.best.value.version != "" then
          Selection(Some(s.best.value.version), Some(s.best.value.publishedAt), s.next, None)
        else Selection(None, None, s.next, Some(NoAgedVersion))
  }

  method ChooseAged(
    rd: Reader, currentVersion: string, latestVersion: string, times: Option<Times>, now: int, days: int, bypass: bool)
    returns (r: Selection)
    ensures r == Choose(rd, currentVersion, latestVersion, times, now, days, bypass)
  {
    if currentVersion == "" || latestVersion == "" {
      return Selection(None, None, None, Some(MissingVersion));
    }
    if currentVersion == latestVersion {
      return Selection(None, None, None, Some(NoAgedVersion));
    }
    if bypass {
      return Selection(Some(latestVersion), if times.Some? then Lookup(times.value, latestVersion) else None, None, None);
    }
    var current := rd.parse(currentVersion);
    if current.None? {
      return Selection(None, None, None, Some(NonSemverCurrent));
    }
    if times.None? {
      return Selection(None, None, None, Some(MetadataUnavailable));
    }
    var best, nextEligibleAt := ScanTimes(rd, current.value, times.value, now, MinimumAge(days));
    if best.Some? && best.value.version != "" {
      return Selection(Some(best.value.version), Some(best.value.publishedAt), nextEligibleAt, None);
    }
    return Selection(None, None, nextEligibleAt, Some(NoAgedVersion));
  }

  method ScanTimes(rd: Reader, current: Semver, times: Times, now: int, age: nat)
    returns (best: Option<Best>, nextEligibleAt: Option<int>)
    ensures Scan(best, nextEligibleAt) == ScanAll(rd, current, now, age, times)
  {
    var cutoff := now - age;
    best, nextEligibleAt := None, None;
    for i := 0 to |times|
      invariant Scan(best, nextEligibleAt) == ScanAll(rd, current, now, age, times[..i])
    {
      assert times[..i + 1][..i] == times[..i];
      var (version, publishedAt) := times[i];
      var parsed := rd.parse(version);
      if parsed.None? || Compare(parsed.value, current) <= 0 {
        continue;
      }
      var at := rd.clock(publishedAt);
      if !IsFiniteTimestamp(at) {
        continue;
      }
      if at.value <= cutoff {
        if best.None? || Compare(parsed.value, best.value.parsed) > 0 {
          best := Some(Best(version, parsed.value, publishedAt));
        }
        continue;
      }
      var eligibleAt := at.value + age;
      if eligibleAt > now && (nextEligibleAt.None? || eligibleAt < nextEligibleAt.value) {
        nextEligibleAt := Some(eligibleAt);
      }
    }
    assert times[..|times|] == times;
  }

  // ---- what the scan finds -----------------------------------------------------------------

  predicate IsEligible(rd: Reader, current: Semver, now: int, age: nat, e: Entry) {
    IsCandidate(rd, current, e) && rd.clock(e.1).value + age <= now
  }

  predicate IsBest(rd: Reader, current: Semver, now: int, age: nat, times: Times, best: Best) {
    && (best.version, best.publishedAt) in times
    && IsEligible(rd, current, now, age, (best.version, best.publishedAt))
    && rd.parse(best.version) == Some(best.parsed)
  }

  /** The best is a greatest eligible candidate, and there is one unless none is eligible. */
  lemma {:induction false} ScanFindsGreatest(rd: Reader, current: Semver, now: int, age: nat, times: Times)
    ensures var best := ScanAll(rd, current, now, age, times).best;
      && (best.Some? ==> IsBest(rd, current, now, age, times, best.value))
      && (forall e :: e in times && IsEligible(rd, current, now, age, e) ==>
            best.Some? && Compare(rd.parse(e.0).value, best.value.parsed) <= 0)
  {
    if times != [] {
      var n := |times| - 1;
      ScanFindsGreatest(rd, current, now, age, times[..n]);
      assert times == times[..n] + [times[n]];
    }
  }

  /** The next date is the earliest at which a candidate not eligible yet becomes so. */
  lemma {:induction false} ScanFindsNext(rd: Reader, current: Semver, now: int, age: nat, times: Times)
    ensures var next := ScanAll(rd, current, now, age, times).next;
      && (next.Some? ==> next.value > now)
      && (next.Some? ==> exists e :: e in times && IsCandidate(rd, current, e) && rd.clock(e.1).value + age == next.value)
      && (forall e :: e in times && IsCandidate(rd, current, e) && rd.clock(e.1).value + age > now ==>
            next.Some? && next.value <= rd.clock(e.1).value + age)
  {
    if times != [] {
      var n := |times| - 1;
      ScanFindsNext(rd, current, now, age, times[..n]);
      assert times == times[..n] + [times[n]];
    }
  }

  /** What is found depends only on which entries are eligible. */
  lemma {:induction false} SameEligibleSameScan(
    rd: Reader, current: Semver, now: int, later: int, age: nat, times: Times)
    requires forall e :: e in times ==> (IsEligible(rd, current, now, age, e) <==> IsEligible(rd, current, later, age, e))
    ensures ScanAll(rd, current, now, age, times) == ScanAll(rd, current, later, age, times)
  {
    if times != [] {
      var n := |times| - 1;
      assert times == times[..n] + [times[n]];
      SameEligibleSameScan(rd, current, now, later, age, times[..n]);
      assert IsEligible(rd, current, now, age, times[n]) == IsEligible(rd, current, later, age, times[n]);
    }
  }

  lemma {:induction false} LookupFinds(times: Times, e: Entry)
    requires DistinctKeys(times) && e in times
    ensures Lookup(times, e.0) == Some(e.1)
  {
    var n := |times| - 1;
    assert times == times[..n] + [times[n]];
    if times[n] != e {
      LookupFinds(times[..n], e);
      var i :| 0 <= i < n && times[i] == e;
    }
  }

  lemma {:induction false} LookupIsEntry(times: Times, version: string)
    requires Lookup(times, version).Some?
    ensures (version, Lookup(times, version).value) in times
  {
    var n := |times| - 1;
    assert times == times[..n] + [times[n]];
    if times[n].0 != version {
      LookupIsEntry(times[..n], version);
    }
  }

  // ---- the choice, and how it moves with time -----------------------------------------------

  /** A stable version above the current one that the age check calls eligible. */
  predicate MayBeChosen(rd: Reader, current: Semver, times: Times, now: int, days: int, version: string) {
    && rd.parse(version).Some? && Compare(rd.parse(version).value, current) > 0
    && Evaluate(rd, version, Some(times), now, days, false).eligible
  }

  /**
   With the gate on, a newer target is chosen exactly when one is eligible, it is one the
   age check calls eligible, and no eligible stable version is greater.
   */
  lemma TargetIsGreatestEligible(
    rd: Reader, currentVersion: string, latestVersion: string, times: Times, now: int, days: int)
    requires Sound(rd) && DistinctKeys(times) && rd.parse(currentVersion).Some?
    requires latestVersion != "" && currentVersion != latestVersion
    ensures var r := Choose(rd, currentVersion, latestVersion, Some(times), now, days, false);
      var current := rd.parse(currentVersion).value;
      && (r.target.Some? ==> MayBeChosen(rd, current, times, now, days, r.target.value))
      && (r.target.Some? ==> Evaluate(rd, r.target.value, Some(times), now, days, false).publishedAt == r.publishedAt)
      && (forall v :: MayBeChosen(rd, current, times, now, days, v) ==>
            r.target.Some? && Compare(rd.parse(v).value, rd.parse(r.target.value).value) <= 0)
  {
    var r := Choose(rd, currentVersion, latestVersion, Some(times), now, days, false);
    var current := rd.parse(currentVersion).value;
    var age := MinimumAge(days);
    ScanFindsGreatest(rd, current, now, age, times);
    var best := ScanAll(rd, current, now, age, times).best;
    if best.Some? {
      LookupFinds(times, (best.value.version, best.value.publishedAt));
    }
    forall v | MayBeChosen(rd, current, times, now, days, v)
      ensures r.target.Some? && Compare(rd.parse(v).value, rd.parse(r.target.value).value) <= 0
    {
      LookupIsEntry(times, v);
      assert IsEligible(rd, current, now, age, (v, Lookup(times, v).value));
    }
  }

  /** As time goes on the choice never goes down and is never withdrawn. */
  lemma ChoiceNeverGoesDown(
    rd: Reader, currentVersion: string, latestVersion: string, times: Times, now: int, later: int, days: int)
    requires Sound(rd) && now <= later
    ensures var r := Choose(rd, currentVersion, latestVersion, Some(times), now, days, false);
      var r' := Choose(rd, currentVersion, latestVersion, Some(times), later, days, false);
      r.target.Some? ==>
        && r'.target.Some? && rd.parse(r.target.value).Some? && rd.parse(r'.target.value).Some?
        && Compare(rd.parse(r.target.value).value, rd.parse(r'.target.value).value) <= 0
  {
    if rd.parse(currentVersion).Some? {
      var current := rd.parse(currentVersion).value;
      ScanFindsGreatest(rd, current, now, MinimumAge(days), times);
      ScanFindsGreatest(rd, current, later, MinimumAge(days), times);
    }
  }

  /** Before the announced date the whole answer stays exactly what it is, the date itself included. */
  lemma ChoiceHoldsUntilNext(
    rd: Reader, currentVersion: string, latestVersion: string, times: Times, now: int, later: int, days: int)
    requires now <= later
    requires var next := Choose(rd, currentVersion, latestVersion, Some(times), now, days, false).nextEligibleAt;
      next.Some? ==> later < next.value
    ensures Choose(rd, currentVersion, latestVersion, Some(times), later, days, false)
         == Choose(rd, currentVersion, latestVersion, Some(times), now, days, false)
  {
    if currentVersion != "" && latestVersion != "" && currentVersion != latestVersion && rd.parse(currentVersion).Some? {
      var current := rd.parse(currentVersion).value;
      var age := MinimumAge(days);
      ScanFindsNext(rd, current, now, age, times);
      forall e | e in times ensures IsEligible(rd, current, now, age, e) == IsEligible(rd, current, later, age, e) {
      }
      SameEligibleSameScan(rd, current, now, later, age, times);
    }
  }

  /** At the announced date the set of eligible versions grows, and by a version not in it before. */
  lemma NextDateBringsAVersion(
    rd: Reader, currentVersion: string, latestVersion: string, times: Times, now: int, days: int)
    requires rd.parse(currentVersion).Some?
    requires Choose(rd, currentVersion, latestVersion, Some(times), now, days, false).nextEligibleAt.Some?
    ensures var current := rd.parse(currentVersion).value;
      var next := Choose(rd, currentVersion, latestVersion, Some(times), now, days, false).nextEligibleAt.value;
      && now < next
      && (set e | e in times && IsEligible(rd, current, now, MinimumAge(days), e))
         < (set e | e in times && IsEligible(rd, current, next, MinimumAge(days), e))
  {
    var current := rd.parse(currentVersion).value;
    var age := MinimumAge(days);
    ScanFindsNext(rd, current, now, age, times);
    var next := ScanAll(rd, current, now, age, times).next.value;
    var e :| e in times && IsCandidate(rd, current, e) && rd.clock(e.1).value + age == next;
    var before := set e | e in times && IsEligible(rd, current, now, age, e);
    var after := set e | e in times && IsEligible(rd, current, next, age, e);
    assert before <= after && e in after && e !in before;
  }

  // ---- with the source's own version pattern ----------------------------------------------------

  /** `[v]X.Y.Z[+build]`: a stable version, with white space around it if need be. */
  ghost predicate IsStableText(version: string) {
    exists major, minor, patch, build ::
      && Numeric(major) && Numeric(minor) && Numeric(patch) && IsBuildSuffix(build)
      && Spelled(Trim(version), major + "." + minor + "." + patch + build)
  }

  predicate Spelled(text: string, core: string) {
    text == core || text == "v" + core
  }

  lemma ParsedIsStable(version: string)
    requires ParseStableSemver(version).Some?
    ensures IsStableText(version)
  {
    var t := Trim(version);
    if t != "" && t[0] == 'v' {
      assert t == "v" + t[1..];
      StableFrom(version, t[1..]);
    } else {
      StableFrom(version, t);
    }
  }

  lemma StableFrom(version: string, core: string)
    requires Spelled(Trim(version), core) && TripleField(core).Some? && IsBuildSuffix(TripleField(core).value.rest)
    ensures IsStableText(version)
  {
    var v := TripleField(core).value;
    TripleFieldShape(core);
    assert Spelled(Trim(version), v.major + "." + v.minor + "." + v.patch + v.rest);
  }

  /** With the gate on, whatever `Date.parse` does, what is proposed is a stable version and never a prerelease. */
  lemma SourceProposesStable(
    dateParse: string -> Option<int>, currentVersion: string, latestVersion: string, times: Option<Times>, now: int, days: int)
    requires dateParse("").None?
    ensures var rd := SourceReader(dateParse);
      var r := Choose(rd, currentVersion, latestVersion, times, now, days, false);
      r.target.Some? ==>
        && IsStableText(r.target.value)
        && ParseStableSemver(r.target.value).Some? && ParseStableSemver(currentVersion).Some?
        && Compare(ParseStableSemver(r.target.value).value, ParseStableSemver(currentVersion).value) > 0
  {
    var rd := SourceReader(dateParse);
    var r := Choose(rd, currentVersion, latestVersion, times, now, days, false);
    if r.target.Some? {
      ScanFindsGreatest(rd, rd.parse(currentVersion).value, now, MinimumAge(days), times.value);
      ParsedIsStable(r.target.value);
    }
  }
}
