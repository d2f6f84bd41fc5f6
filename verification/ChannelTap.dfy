/**
 Pushing to the Homebrew tap and the Scoop bucket, and exactly when a published descriptor can come back.
 */
module ChannelTap {
  import opened Wrappers
  import opened Text
  import opened Versions
  import opened VersionOrder
  import opened OrderLaws
  import opened PackageManifests
  import opened ManifestReadBack
  import opened ChannelState
  import opened ChannelPush

  function Homebrew(node: string): Format {
    Format((i: Inputs) => var text := RenderHomebrewFormula(node, i); if text.Ok? then text.value else "", ParseHomebrew)
  }

  /** What the script requires of its arguments before it reads anything. */
  predicate IsAccepted(i: Inputs) {
    IsVersion(i.version) && IsSha256(i.sha256) && CheckDescriptorUrl(i.url, i.version, None).None?
  }

  /** Whatever the script accepts and writes to the channel, it reads back. */
  ghost predicate ReadsBack(f: Format) {
    forall i :: IsAccepted(i) ==> f.parse(f.render(i)) == Published(i)
  }

  lemma TapReadsBack(node: string)
    requires IsLine(node)
    ensures ReadsBack(Homebrew(node))
  {
    forall i | IsAccepted(i) ensures Homebrew(node).parse(Homebrew(node).render(i)) == Published(i) {
      HomebrewReadsBack(node, i);
    }
  }

  // ---- the Scoop bucket ------------------------------------------------------------------------------

  /** JSON, as far as the manifest goes; the order of keys and the white space are the printer's. */
  datatype Json = Text(text: string) | List(items: seq<Json>) | Object(fields: map<string, Json>) | OtherJson

  function TextAt(json: Json, key: string): Option<string> {
    if json.Object? && key in json.fields && json.fields[key].Text? then Some(json.fields[key].text) else None
  }

  function ScoopManifest(i: Inputs): Json {
    Object(map[
      "version" := Text(i.version),
      "description" := Text(ShortDescription()),
      "homepage" := Text(Homepage()),
      "license" := Text("MIT"),
      "url" := Text(i.url),
      "hash" := Text(i.sha256),
      "extract_dir" := Text("looptroop"),
      "depends" := List([Text("nodejs-lts"), Text("git"), Text("gh")]),
      "bin" := List([List([Text("bin\\looptroop.cmd"), Text("looptroop")])]),
      "post_install" := List([Text("Set-Content -LiteralPath " + "\"$dir\\.install-channel\"" + " -Value 'scoop' -NoNewline")]),
      "notes" := List([Text("LoopTroop drives OpenCode," + " which it does not install." + " Run: looptroop doctor")]),
      "checkver" := Object(map["github" := Text("https://github.com/" + "looptroop-ai/LoopTroop")])])
  }

  function RenderScoopManifest(print_: Json -> string, i: Inputs): Result<string> {
    if AssertInputs(i).Some? then Err(AssertInputs(i).value) else Ok(print_(ScoopManifest(i)) + "\n")
  }

  function WithoutPrefix(s: string, prefix: string): string {
    if StartsWith(s, prefix) then s[|prefix|..] else s
  }

  /** Text that is no JSON, or JSON that is no object, has none of the three fields. */
  function ParseScoop(read: string -> Option<Json>, text: string): Descriptor {
    var json := read(text);
    if json.None? then Descriptor(None, None, None)
    else
      var hash := TextAt(json.value, "hash");
      Descriptor(TextAt(json.value, "version"), TextAt(json.value, "url"),
                 if hash.None? then None else Some(WithoutPrefix(hash.value, "sha256:")))
  }

  /** The reader gives back every manifest that the printer prints, with a line end behind it. */
  ghost predicate IsJson(print_: Json -> string, read: string -> Option<Json>) {
    forall i: Inputs :: read(print_(ScoopManifest(i)) + "\n") == Some(ScoopManifest(i))
  }

  function Scoop(print_: Json -> string, read: string -> Option<Json>): Format {
    Format((i: Inputs) => var text := RenderScoopManifest(print_, i); if text.Ok? then text.value else "",
           (text: string) => ParseScoop(read, text))
  }

  /** Reading back a rendered manifest gives version, URL and hash, whatever JSON printer and reader fit together. */
  lemma ScoopReadsBack(print_: Json -> string, read: string -> Option<Json>, i: Inputs)
    requires IsJson(print_, read) && AssertInputs(i).None?
    ensures RenderScoopManifest(print_, i).Ok?
    ensures ParseScoop(read, RenderScoopManifest(print_, i).value) == Published(i)
  {
    assert read(print_(ScoopManifest(i)) + "\n") == Some(ScoopManifest(i));
    ManifestHas(i);
    HashHasNoPrefix(i.sha256);
  }

  lemma ManifestHas(i: Inputs)
    ensures TextAt(ScoopManifest(i), "version") == Some(i.version)
    ensures TextAt(ScoopManifest(i), "url") == Some(i.url)
    ensures TextAt(ScoopManifest(i), "hash") == Some(i.sha256)
  {
  }

  lemma HashHasNoPrefix(sha256: string)
    requires IsSha256(sha256)
    ensures !StartsWith(sha256, "sha256:")
  {
    var prefix := "sha256:";
    assert prefix[0] == 's' && sha256[0] != 's';
  }

  lemma BucketReadsBack(print_: Json -> string, read: string -> Option<Json>)
    requires IsJson(print_, read)
    ensures ReadsBack(Scoop(print_, read))
  {
    var f := Scoop(print_, read);
    forall i | IsAccepted(i) ensures f.parse(f.render(i)) == Published(i) {
      AcceptedIsReadable(i);
      ScoopReadsBack(print_, read, i);
    }
  }

  // ---- versions ------------------------------------------------------------------------------------------

  /** The checks of the arguments make every push to such a channel one the results about pushers cover. */
  lemma AcceptedIsPushable(f: Format, versions: iset<string>, p: Push)
    requires ReadsBack(f) && IsAccepted(p.desired) && p.desired.version in versions
    ensures IsPushable(f, versions, p)
  {
  }

  lemma ReleaseIsVersion(version: string)
    requires IsReleaseVersion(version)
    ensures IsVersion(version)
  {
    var v :| IsRelease(v) && version == Show(v);
    ShownIsVersion(v);
  }

  lemma ShownIsVersion(v: ParsedVersion)
    ensures IsVersion(Show(v))
  {
    if v.prerelease.Some? {
      CandidateSuffix(v.prerelease.value);
      NumbersAreVersion(Numeral(v.major), Numeral(v.minor), Numeral(v.patch), "-rc." + Numeral(v.prerelease.value));
    } else {
      NumbersAreVersion(Numeral(v.major), Numeral(v.minor), Numeral(v.patch), "");
    }
  }

  lemma CandidateSuffix(n: nat)
    ensures var s := "-rc." + Numeral(n); |s| > 1 && s[0] == '-' && forall i :: 0 < i < |s| ==> IsPreChar(s[i])
  {
  }

  lemma NumbersAreVersion(major: string, minor: string, patch: string, suffix: string)
    requires Numeric(major) && Numeric(minor) && Numeric(patch)
    requires suffix == "" || (|suffix| > 1 && suffix[0] == '-' && forall i :: 0 < i < |suffix| ==> IsPreChar(suffix[i]))
    ensures IsVersion(major + "." + minor + "." + patch + suffix)
  {
    TripleFieldOf(major, minor, patch, suffix);
  }

  // ---- runs that come back -----------------------------------------------------------------------------

  /** The arguments of a real push of this version. */
  function InputsOf(version: string): Inputs {
    Inputs(version, ReleaseAssetUrl(version, BundleFileName(version)), seq(64, _ => '0'))
  }

  function PushOf(version: string): Push {
    Push(InputsOf(version), false, false)
  }

  lemma InputsAreAccepted(version: string)
    requires IsVersion(version)
    ensures IsAccepted(InputsOf(version))
  {
    VersionChars(version);
    assert StripV(version) == version;
    assert IsSha256(seq(64, _ => '0'));
  }

  /** Some run of ordinary pushes of these versions, from a descriptor of one of them, comes back to that descriptor. */
  ghost predicate CanComeBack(f: Format, versions: iset<string>) {
    SomeRunComesBack(f, IsAccepted, versions)
  }

  lemma OrdinaryArePushable(f: Format, versions: iset<string>, pushes: seq<Push>)
    requires ReadsBack(f) && AreOrdinary(IsAccepted, versions, pushes)
    ensures AllPushable(f, versions, pushes)
    ensures forall acts: seq<Act> :: AllUnforced(pushes, acts)
  {
    forall i | 0 <= i < |pushes| ensures IsPushable(f, versions, pushes[i]) {
      AcceptedIsPushable(f, versions, pushes[i]);
    }
  }

  /** Over versions that neither clash nor tangle nothing comes back. */
  lemma RegularNeverComesBack(f: Format, versions: iset<string>, i: Inputs, pushes: seq<Push>, s: Channel,
                              before: seq<Act>, behind: seq<Act>)
    requires Regular(versions) && ReadsBack(f)
    requires IsAccepted(i) && i.version in versions && AreOrdinary(IsAccepted, versions, pushes)
    requires AllStarted(pushes, s) && s.file == Some(f.render(i))
    ensures !ComesBack(f, pushes, s, before, behind)
  {
    if ComesBack(f, pushes, s, before, behind) {
      RegularIsLinear(versions);
      OrdinaryArePushable(f, versions, pushes);
      assert f.parse(f.render(i)) == Published(i);
      InitialIsInv(f, versions, pushes, s);
      HistorySplits(f, pushes, s, before, behind);
      var m := AfterActs(f, pushes, s, before);
      FileOnlyRises(f, versions, pushes, s, before);
      VersionNeverFalls(f, versions, pushes, s, before);
      VersionNeverFalls(f, versions, pushes, m, behind);
      LaterIsTransitive(f, versions, s.file, m.file, AfterActs(f, pushes, m, behind).file);
    }
  }

  lemma UpgradeIsWritten(f: Format, older: string, newer: string)
    requires ReadsBack(f) && IsVersion(older) && IsVersion(newer) && ChannelOrder(newer, older) == 1
    ensures Writes(DecisionOn(f, PushOf(newer), Some(f.render(InputsOf(older)))))
  {
    InputsAreAccepted(older);
    assert f.parse(f.render(InputsOf(older))) == Published(InputsOf(older));
  }

  lemma FormulasDiffer(f: Format, a: string, b: string)
    requires ReadsBack(f) && IsVersion(a) && IsVersion(b) && a != b
    ensures f.render(InputsOf(a)) != f.render(InputsOf(b))
  {
    InputsAreAccepted(a);
    InputsAreAccepted(b);
    assert f.parse(f.render(InputsOf(a))) == Published(InputsOf(a));
    assert f.parse(f.render(InputsOf(b))) == Published(InputsOf(b));
  }

  lemma PushOfIsOrdinary(versions: iset<string>, version: string)
    requires IsVersion(version) && version in versions
    ensures IsOrdinary(IsAccepted, versions, PushOf(version))
  {
    InputsAreAccepted(version);
  }

  /** Two versions each above the other: one push there, one push back. */
  lemma MutualComesBack(f: Format, versions: iset<string>, a: string, b: string)
    requires ReadsBack(f) && IsVersion(a) && IsVersion(b) && a in versions && b in versions && a != b
    requires ChannelOrder(b, a) == 1 && ChannelOrder(a, b) == 1
    ensures CanComeBack(f, versions)
  {
    PushOfIsOrdinary(versions, a);
    PushOfIsOrdinary(versions, b);
    FormulasDiffer(f, a, b);
    UpgradeIsWritten(f, a, b);
    UpgradeIsWritten(f, b, a);
    TwoComeBack(f, IsAccepted, versions, PushOf(b), PushOf(a));
  }

  /** Three versions in a circle: three pushes, each an upgrade. */
  lemma CircleComesBack(f: Format, versions: iset<string>, a: string, b: string, c: string)
    requires ReadsBack(f) && IsVersion(a) && IsVersion(b) && IsVersion(c)
    requires a in versions && b in versions && c in versions && a != b
    requires ChannelOrder(b, a) == 1 && ChannelOrder(c, b) == 1 && ChannelOrder(a, c) == 1
    ensures CanComeBack(f, versions)
  {
    PushOfIsOrdinary(versions, a);
    PushOfIsOrdinary(versions, b);
    PushOfIsOrdinary(versions, c);
    FormulasDiffer(f, a, b);
    UpgradeIsWritten(f, a, b);
    UpgradeIsWritten(f, b, c);
    UpgradeIsWritten(f, c, a);
    ThreeComeBack(f, IsAccepted, versions, PushOf(b), PushOf(c), PushOf(a));
  }

  lemma TangledComesBack(f: Format, versions: iset<string>, a: string, b: string, c: string)
    requires ReadsBack(f) && IsVersion(a) && IsVersion(b) && IsVersion(c)
    requires a in versions && b in versions && c in versions && Tangled(a, b, c)
    ensures CanComeBack(f, versions)
  {
    TangleIsACircle(a, b, c);
    ChannelOrderIsReflexive(a);
    CircleComesBack(f, versions, a, b, c);
  }

  lemma ClashingComesBack(f: Format, versions: iset<string>, a: string, b: string)
    requires ReadsBack(f) && IsVersion(a) && IsVersion(b) && a in versions && b in versions && Clash(a, b)
    ensures CanComeBack(f, versions)
  {
    ClashIsMutual(a, b);
    MutualComesBack(f, versions, a, b);
  }

  /**
   The exact condition, for a channel that reads back what the script writes: a run of ordinary pushes
   of these versions can bring it back to a descriptor it had left if and only if two of them clash or
   three of them tangle.
   */
  lemma ComesBackExactly(f: Format, versions: iset<string>)
    requires ReadsBack(f) && forall v :: v in versions ==> IsVersion(v)
    ensures CanComeBack(f, versions) <==> !Regular(versions)
  {
    if Regular(versions) && CanComeBack(f, versions) {
      var i: Inputs, pushes, s, before, behind :|
        && IsAccepted(i) && i.version in versions && AreOrdinary(IsAccepted, versions, pushes)
        && AllStarted(pushes, s) && s.file == Some(f.render(i))
        && ComesBack(f, pushes, s, before, behind);
      RegularNeverComesBack(f, versions, i, pushes, s, before, behind);
    }
    if !Regular(versions) {
      if a, b :| a in versions && b in versions && Clash(a, b) {
        ClashingComesBack(f, versions, a, b);
      } else {
        var a, b, c :| a in versions && b in versions && c in versions && Tangled(a, b, c);
        TangledComesBack(f, versions, a, b, c);
      }
    }
  }

  // ---- two sets the script accepts -----------------------------------------------------------------------------

  /** Prereleases of 1.0.0. */
  function OfOne(x: string): string {
    "1.0.0" + "-" + x
  }

  predicate IsIdentifier(x: string) {
    x != "" && Without(x, '-') && Without(x, '.') && forall i :: 0 <= i < |x| ==> IsPreChar(x[i])
  }

  lemma PrereleaseIsVersion(x: string)
    requires IsIdentifier(x)
    ensures IsVersion(OfOne(x))
  {
    OneZeroZeroIsThree();
    NumbersAreVersion("1", "0", "0", "-" + x);
    assert "1.0.0" + ("-" + x) == OfOne(x);
  }

  lemma OneZeroZeroIsThree()
    ensures "1" + "." + "0" + "." + "0" == "1.0.0" && Numeric("1") && Numeric("0")
  {
  }

  /** The parts of `1.0.0-<x>`. */
  function PartsOf(x: string): SplitVersion {
    SplitVersion(["1", "0", "0"], Some(x))
  }

  lemma OneIdentifier(x: string)
    requires IsIdentifier(x)
    ensures SplitParts(OfOne(x)) == PartsOf(x) && Ids(PartsOf(x)) == [x]
  {
    OneZeroZero();
    SplitWithPre("1.0.0", ["1", "0", "0"], x);
    SplitOnce(x, '.', "");
  }

  lemma OneIdentifierTangles(x: string, y: string, z: string)
    requires IsIdentifier(x) && IsIdentifier(y) && IsIdentifier(z) && Tangle(x, y, z)
    ensures Tangled(OfOne(x), OfOne(y), OfOne(z))
  {
    OneIdentifier(x);
    OneIdentifier(y);
    OneIdentifier(z);
    CoreEqualsItself(["1", "0", "0"], 0);
    assert AgreeTo([x], [y], 0) && AgreeTo([y], [z], 0) && Tangle([x][0], [y][0], [z][0]);
    assert PartsTangle(PartsOf(x), PartsOf(y), PartsOf(z));
  }

  lemma OneIdentifierClashes(x: string, y: string)
    requires IsIdentifier(x) && IsIdentifier(y) && SameNumber(x, y)
    ensures Clash(OfOne(x), OfOne(y))
  {
    OneIdentifier(x);
    OneIdentifier(y);
    CoreEqualsItself(["1", "0", "0"], 0);
    assert AgreeTo([x], [y], 0) && SameNumber([x][0], [y][0]);
    assert PartsClash(PartsOf(x), PartsOf(y));
  }

  lemma NineTenTangle()
    ensures Tangle("9", "10", "1a")
  {
    assert "9" == Numeral(9) && "10" == Numeral(10);
    NumeralValue(9);
    NumeralValue(10);
    assert "1a"[1] == 'a';
    FirstDifferenceDecides('1', '0', 'a');
    FirstDifferenceDecides('a', '1', '9');
    assert "1a" == ['1', 'a'] && "10" == ['1', '0'] && "9" == ['9'];
  }

  lemma AreIdentifiers()
    ensures IsIdentifier("9") && IsIdentifier("10") && IsIdentifier("1a") && IsIdentifier("1") && IsIdentifier("01")
  {
  }

  /** Three versions the script accepts whose pushes, each an upgrade, go round in a circle. */
  lemma ChannelRunsInACircle(f: Format)
    requires ReadsBack(f)
    ensures CanComeBack(f, iset{OfOne("9"), OfOne("10"), OfOne("1a")})
  {
    AreIdentifiers();
    NineTenTangle();
    PrereleaseIsVersion("9");
    PrereleaseIsVersion("10");
    PrereleaseIsVersion("1a");
    OneIdentifierTangles("9", "10", "1a");
    TangledComesBack(f, iset{OfOne("9"), OfOne("10"), OfOne("1a")}, OfOne("9"), OfOne("10"), OfOne("1a"));
  }

  lemma OneAndZeroOneAreOne()
    ensures SameNumber("1", "01")
  {
    assert "01"[..1] == "0" && "0"[..0] == "" && "1"[..0] == "";
    assert Value("") == 0 && Value("0") == 0;
  }

  /** Two candidates the script accepts, one with a leading zero: each replaces the other. */
  lemma LeadingZeroComesBack(f: Format)
    requires ReadsBack(f)
    ensures CanComeBack(f, iset{OfOne("1"), OfOne("01")})
  {
    AreIdentifiers();
    OneAndZeroOneAreOne();
    PrereleaseIsVersion("1");
    PrereleaseIsVersion("01");
    OneIdentifierClashes("1", "01");
    ClashingComesBack(f, iset{OfOne("1"), OfOne("01")}, OfOne("1"), OfOne("01"));
  }

  /** Both do to the tap and to the bucket. */
  lemma TapAndBucketRunInACircle(node: string, print_: Json -> string, read: string -> Option<Json>)
    requires IsLine(node) && IsJson(print_, read)
    ensures CanComeBack(Homebrew(node), iset{OfOne("9"), OfOne("10"), OfOne("1a")})
    ensures CanComeBack(Scoop(print_, read), iset{OfOne("9"), OfOne("10"), OfOne("1a")})
    ensures CanComeBack(Homebrew(node), iset{OfOne("1"), OfOne("01")})
    ensures CanComeBack(Scoop(print_, read), iset{OfOne("1"), OfOne("01")})
  {
    TapReadsBack(node);
    BucketReadsBack(print_, read);
    ChannelRunsInACircle(Homebrew(node));
    ChannelRunsInACircle(Scoop(print_, read));
    LeadingZeroComesBack(Homebrew(node));
    LeadingZeroComesBack(Scoop(print_, read));
  }

  // ---- releases ---------------------------------------------------------------------------------------------

  ghost function Releases(): iset<string> {
    iset v: string | IsReleaseVersion(v)
  }

  /** Pushes of releases never bring a channel back. */
  lemma ReleasesNeverComeBack(f: Format)
    requires ReadsBack(f)
    ensures !CanComeBack(f, Releases())
  {
    forall v | v in Releases() ensures IsVersion(v) {
      ReleaseIsVersion(v);
    }
    ReleasesAreRegular(Releases());
    ComesBackExactly(f, Releases());
  }
}
