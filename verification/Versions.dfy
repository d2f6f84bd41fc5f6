/**
 The two version orders of the release scripts, written independently of each other:
 `scripts/version-bump.ts` and `scripts/channel-state.ts`.
 */
module Versions {
  import opened Wrappers
  import opened Text

  // ---- version-bump.ts -----------------------------------------------------------------

  datatype ParsedVersion = ParsedVersion(major: nat, minor: nat, patch: nat, prerelease: Option<nat>)

  /** What `parseVersion` can return: candidates count from one. */
  predicate IsRelease(v: ParsedVersion) {
    v.prerelease.Some? ==> v.prerelease.value >= 1
  }

  /** The optional `-rc.N` and the end of the string. */
  function ParseSuffix(s: string): Result<Option<nat>> {
    if s == "" then Ok(None)
    else if |s| < 3 || s[..3] != "-rc" then Err("not MAJOR.MINOR.PATCH or MAJOR.MINOR.PATCH-rc.N")
    else
      var n := DotField(s[3..]);
      if n.None? || n.value.rest != "" then Err("not MAJOR.MINOR.PATCH or MAJOR.MINOR.PATCH-rc.N")
      else if HasLeadingZero(n.value.digits) then Err("a leading zero in its release-candidate number")
      else if Value(n.value.digits) < 1 then Err("numbers its release candidate from zero")
      else Ok(Some(Value(n.value.digits)))
  }

  function ParseVersion(value: string): Result<ParsedVersion> {
    if Trim(value) != value then Err("surrounding whitespace") else
    var v := TripleField(value);
    if v.None? then Err("not MAJOR.MINOR.PATCH or MAJOR.MINOR.PATCH-rc.N") else
    var suffix := ParseSuffix(v.value.rest);
    if suffix == Err("not MAJOR.MINOR.PATCH or MAJOR.MINOR.PATCH-rc.N") then Err(suffix.error)
    else if HasLeadingZero(v.value.major) || HasLeadingZero(v.value.minor) || HasLeadingZero(v.value.patch)
    then Err("a leading zero")
    else if suffix.Err? then Err(suffix.error)
    else Ok(ParsedVersion(Value(v.value.major), Value(v.value.minor), Value(v.value.patch), suffix.value))
  }

  function CompareParsed(left: ParsedVersion, right: ParsedVersion): int {
    if left.major != right.major then left.major - right.major
    else if left.minor != right.minor then left.minor - right.minor
    else if left.patch != right.patch then left.patch - right.patch
    else if left.prerelease == right.prerelease then 0
    else if left.prerelease.None? then 1
    else if right.prerelease.None? then -1
    else left.prerelease.value - right.prerelease.value
  }

  function CompareVersions(a: string, b: string): Result<int> {
    var left := ParseVersion(a);
    var right := ParseVersion(b);
    if left.Err? then Err(left.error)
    else if right.Err? then Err(right.error)
    else Ok(CompareParsed(left.value, right.value))
  }

  function AssertForwardBump(current: string, candidate: string): Result<()> {
    if current == candidate then Err("already the current version")
    else
      var order := CompareVersions(candidate, current);
      if order.Err? then Err(order.error)
      else if order.value <= 0 then Err("does not come after the current version")
      else Ok(())
  }

  // ---- channel-state.ts ------------------------------------------------------------------

  function ParseIntOrZero(part: string): int {
    var t := TrimStart(part);
    var negative := t != "" && t[0] == '-';
    var d := Digits(if t != "" && (t[0] == '-' || t[0] == '+') then t[1..] else t);
    var n: int := Value(d);
    if negative then -n else n
  }

  datatype SplitVersion = SplitVersion(core: seq<string>, pre: Option<string>)

  /** `split('-', 2)`: what follows a second dash is dropped. */
  function SplitParts(value: string): SplitVersion {
    var pieces := Split(StripV(value), '-');
    SplitVersion(Split(pieces[0], '.'), if |pieces| > 1 then Some(pieces[1]) else None)
  }

  function CoreAt(core: seq<string>, i: nat): int {
    if i < |core| then ParseIntOrZero(core[i]) else 0
  }

  /** The order of the first core field from `i` on that differs. */
  function CompareCore(a: seq<string>, b: seq<string>, i: nat): int
    decreases |a| + |b| - i
  {
    if i >= |a| && i >= |b| then 0
    else if CoreAt(a, i) != CoreAt(b, i) then (if CoreAt(a, i) < CoreAt(b, i) then -1 else 1)
    else CompareCore(a, b, i + 1)
  }

  /** UTF-16 code unit order. */
  predicate StringLess(x: string, y: string) {
    y != "" && (x == "" || x[0] < y[0] || (x[0] == y[0] && StringLess(x[1..], y[1..])))
  }

  function CompareIdentifiers(x: string, y: string): int {
    if x == y then 0
    else if Numeric(x) && Numeric(y) then (if Value(x) < Value(y) then -1 else 1)
    else if StringLess(x, y) then -1
    else 1
  }

  function ComparePre(a: seq<string>, b: seq<string>, i: nat): int
    requires i <= |a| && i <= |b|
    decreases |a| - i
  {
    if i == |a| && i == |b| then 0
    else if i == |a| then -1
    else if i == |b| then 1
    else if a[i] == b[i] then ComparePre(a, b, i + 1)
    else CompareIdentifiers(a[i], b[i])
  }

  function ChannelOrder(left: string, right: string): int {
    var a, b := SplitParts(left), SplitParts(right);
    var core := CompareCore(a.core, b.core, 0);
    if core != 0 then core
    else if a.pre == b.pre then 0
    else if a.pre.None? then 1
    else if b.pre.None? then -1
    else ComparePre(Split(a.pre.value, '.'), Split(b.pre.value, '.'), 0)
  }

  method CompareCores(a: seq<string>, b: seq<string>) returns (r: int)
    ensures r == CompareCore(a, b, 0)
  {
    var index := 0;
    while index < |a| || index < |b|
      invariant 0 <= index
      invariant CompareCore(a, b, 0) == CompareCore(a, b, index)
      decreases |a| + |b| - index
    {
      var difference := CoreAt(a, index) - CoreAt(b, index);
      if difference != 0 {
        return if difference < 0 then -1 else 1;
      }
      index := index + 1;
    }
    return 0;
  }

  method ComparePrereleases(a: seq<string>, b: seq<string>) returns (r: int)
    ensures r == ComparePre(a, b, 0)
  {
    var index := 0;
    while index < |a| || index < |b|
      invariant 0 <= index <= |a| && index <= |b|
      invariant ComparePre(a, b, 0) == ComparePre(a, b, index)
      decreases |a| - index
    {
      if index == |a| {
        return -1;
      }
      if index == |b| {
        return 1;
      }
      if a[index] != b[index] {
        return CompareIdentifiers(a[index], b[index]);
      }
      index := index + 1;
    }
    return 0;
  }

  method CompareChannelVersions(left: string, right: string) returns (r: int)
    ensures r == ChannelOrder(left, right)
  {
    var a, b := SplitParts(left), SplitParts(right);
    r := CompareCores(a.core, b.core);
    if r != 0 || a.pre == b.pre {
      return;
    }
    if a.pre.None? {
      return 1;
    }
    if b.pre.None? {
      return -1;
    }
    r := ComparePrereleases(Split(a.pre.value, '.'), Split(b.pre.value, '.'));
  }

  // ---- the release domain ------------------------------------------------------------------

  function Core(v: ParsedVersion): string {
    Numeral(v.major) + "." + Numeral(v.minor) + "." + Numeral(v.patch)
  }

  function Show(v: ParsedVersion): string {
    Core(v) + (if v.prerelease.None? then "" else "-rc." + Numeral(v.prerelease.value))
  }

  lemma TrimKeepsSolid(s: string)
    requires s != "" && !IsSpace(s[0]) && !IsSpace(s[|s| - 1])
    ensures Trim(s) == s
  {
  }

  lemma TrimKeepsVersion(head: string, patch: string, suffix: string)
    requires head != "" && IsDigit(head[0]) && Numeric(patch)
    requires suffix != "" ==> IsDigit(suffix[|suffix| - 1])
    ensures Trim(head + patch + suffix) == head + patch + suffix
  {
    var s := head + patch + suffix;
    assert s[0] == head[0];
    assert s[|s| - 1] == if suffix == "" then patch[|patch| - 1] else suffix[|suffix| - 1];
    TrimKeepsSolid(s);
  }

  lemma ParseFields(major: string, minor: string, patch: string, suffix: string)
    requires Numeric(major) && Numeric(minor) && Numeric(patch)
    requires !HasLeadingZero(major) && !HasLeadingZero(minor) && !HasLeadingZero(patch)
    requires ParseSuffix(suffix).Ok? && (suffix != "" ==> suffix[0] == '-' && IsDigit(suffix[|suffix| - 1]))
    ensures ParseVersion(major + "." + minor + "." + patch + suffix)
         == Ok(ParsedVersion(Value(major), Value(minor), Value(patch), ParseSuffix(suffix).value))
  {
    TripleFieldOf(major, minor, patch, suffix);
    TrimKeepsVersion(major + "." + minor + ".", patch, suffix);
  }

  /** Reading a printed release back gives that release. */
  lemma ParseShow(v: ParsedVersion)
    requires IsRelease(v)
    ensures ParseVersion(Show(v)) == Ok(v)
  {
    NumeralValue(v.major);
    NumeralValue(v.minor);
    NumeralValue(v.patch);
    SuffixParses(v.prerelease);
    ParseFields(Numeral(v.major), Numeral(v.minor), Numeral(v.patch),
                if v.prerelease.None? then "" else "-rc." + Numeral(v.prerelease.value));
  }

  lemma SuffixParses(n: Option<nat>)
    requires n.Some? ==> n.value >= 1
    ensures ParseSuffix(if n.None? then "" else "-rc." + Numeral(n.value)) == Ok(n)
  {
    if n.Some? {
      var s := "-rc." + Numeral(n.value);
      assert s[..3] == "-rc" && s[3..] == "." + Numeral(n.value) + "";
      FieldOf(Numeral(n.value), "");
      NumeralValue(n.value);
    }
  }

  lemma SuffixIsShown(s: string)
    requires ParseSuffix(s).Ok?
    ensures var n := ParseSuffix(s).value;
      (n.Some? ==> n.value >= 1) && s == if n.None? then "" else "-rc." + Numeral(n.value)
  {
    if s != "" {
      NumeralOfValue(DotField(s[3..]).value.digits);
      assert s == s[..3] + s[3..];
    }
  }

  /** `parseVersion` accepts nothing else. */
  lemma ParseAcceptsOnlyShown(s: string)
    requires ParseVersion(s).Ok?
    ensures IsRelease(ParseVersion(s).value) && s == Show(ParseVersion(s).value)
  {
    var v := TripleField(s).value;
    TripleFieldShape(s);
    NumeralOfValue(v.major);
    NumeralOfValue(v.minor);
    NumeralOfValue(v.patch);
    SuffixIsShown(v.rest);
  }

  /** `X.Y.Z` or `X.Y.Z-rc.N`, without leading zeros. */
  ghost predicate IsReleaseVersion(s: string) {
    exists v :: IsRelease(v) && s == Show(v)
  }

  /** `parseVersion` accepts exactly those. */
  lemma ParseAcceptsExactly(s: string)
    ensures ParseVersion(s).Ok? <==> IsReleaseVersion(s)
    ensures ParseVersion(s).Ok? ==> IsRelease(ParseVersion(s).value) && s == Show(ParseVersion(s).value)
  {
    if ParseVersion(s).Ok? {
      ParseAcceptsOnlyShown(s);
    }
    if IsReleaseVersion(s) {
      var v :| IsRelease(v) && s == Show(v);
      ParseShow(v);
    }
  }
}
