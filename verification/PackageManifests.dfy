/**
 The descriptors of the package channels and what is read back from them:
 `scripts/package-manifests.ts`, with the URL check of `scripts/channel-state.ts`.

 A rendered descriptor is its lines, each `indent` spaces, a first word and the rest.
 */
module PackageManifests {
  import opened Wrappers
  import opened Text

  datatype Inputs = Inputs(version: string, url: string, sha256: string)

  datatype Descriptor = Descriptor(version: Option<string>, url: Option<string>, sha256: Option<string>)

  // ---- what a version, a hash and a URL are ------------------------------------------------------

  /** `[0-9A-Za-z.-]` */
  predicate IsPreChar(c: char) {
    IsDigit(c) || 'a' <= c <= 'z' || 'A' <= c <= 'Z' || c == '.' || c == '-'
  }

  /** `^\d+\.\d+\.\d+(?:-[0-9A-Za-z.-]+)?$` */
  predicate IsVersion(s: string) {
    var core := TripleField(s);
    && core.Some?
    && var rest := core.value.rest;
    rest == "" || (|rest| > 1 && rest[0] == '-' && forall i :: 0 < i < |rest| ==> IsPreChar(rest[i]))
  }

  predicate IsHex(c: char) {
    IsDigit(c) || 'a' <= c <= 'f'
  }

  predicate IsSha256(s: string) {
    |s| == 64 && forall i :: 0 <= i < |s| ==> IsHex(s[i])
  }

  function Repository(): string {
    "https://github.com" + "/looptroop-ai/LoopTroop"
  }

  function BundleFileName(version: string): string {
    "looptroop-" + version + "-bundle.tar.gz"
  }

  function WindowsBinaryZipName(version: string): string {
    "looptroop-" + version + "-win-x64.zip"
  }

  function ReleaseAssetUrl(version: string, asset: string): string {
    Repository() + "/releases/download/v" + StripV(version) + "/" + asset
  }

  /** `None` when the URL can be published. */
  function CheckDescriptorUrl(url: string, version: string, asset: Option<string>): Option<string> {
    var release := StripV(version);
    var expected := ReleaseAssetUrl(release, if asset.Some? then asset.value else BundleFileName(release));
    if url == expected then None else Some("--url must be exactly " + expected)
  }

  // ---- text ------------------------------------------------------------------------------------------

  datatype Row = Row(indent: nat, word: string, rest: string)

  function Spaces(n: nat): string {
    if n == 0 then "" else " " + Spaces(n - 1)
  }

  function RowText(line: Row): string {
    Spaces(line.indent) + line.word + line.rest
  }

  function TextOf(lines: seq<Row>): string {
    if lines == [] then "" else RowText(lines[0]) + ['\n'] + TextOf(lines[1..])
  }

  // ---- reading a field back ------------------------------------------------------------------------------

  /** The leftmost line start at which `read` succeeds. */
  function FirstAt(read: string -> Option<string>, s: string): Option<string>
    decreases |s|
  {
    if read(s).Some? then read(s)
    else
      var i := IndexOf(s, '\n');
      if i == |s| then None else FirstAt(read, s[i + 1..])
  }

  /** `\s+"([^"]+)"` */
  function QuotedValue(s: string): Option<string> {
    var t := TrimStart(s);
    if |t| == |s| || t == "" || t[0] != '"' then None
    else
      var i := IndexOf(t[1..], '"');
      if i == 0 || i == |t| - 1 then None else Some(t[1..][..i])
  }

  /** `^\s*<key>\s+"([^"]+)"` */
  function Quoted(key: string): string -> Option<string> {
    s =>
      var t := TrimStart(s);
      if StartsWith(t, key) then QuotedValue(t[|key|..]) else None
  }

  function Solid(s: string): (r: string)
    ensures |r| <= |s|
  {
    if s != "" && !IsSpace(s[0]) then [s[0]] + Solid(s[1..]) else ""
  }

  /** `\s*(\S+)` */
  function SolidValue(s: string): Option<string> {
    var v := Solid(TrimStart(s));
    if v == "" then None else Some(v)
  }

  predicate IsAnyHex(c: char) {
    IsHex(c) || 'A' <= c <= 'F'
  }

  /** `\s*([0-9a-fA-F]{64})`, lower-cased. */
  function HashValue(s: string): Option<string> {
    var t := TrimStart(s);
    if |t| >= 64 && forall i :: 0 <= i < 64 ==> IsAnyHex(t[i]) then Some(Lower(t[..64])) else None
  }

  /** `^<key>` or `^\s*<key>`, and the value behind it. */
  function Keyed(indented: bool, key: string, value: string -> Option<string>): string -> Option<string> {
    s =>
      var t := if indented then TrimStart(s) else s;
      if StartsWith(t, key) then value(t[|key|..]) else None
  }

  /** The version Homebrew scans out of a bundle URL: the leftmost `looptroop-` that fits. */
  function VersionFromBundleUrl(url: string): Option<string> {
    if url == "" then None
    else if IsBundle(url) then Some(url[10..|url| - 14])
    else VersionFromBundleUrl(url[1..])
  }

  /** `looptroop-<version>-bundle.tar.gz`, to the end. */
  predicate IsBundle(s: string) {
    && |s| > 24 && StartsWith(s, "looptroop-") && s[|s| - 14..] == "-bundle.tar.gz"
    && IsVersion(s[10..|s| - 14])
  }

  function ParseHomebrew(text: string): Descriptor {
    var url := FirstAt(Quoted("url"), text);
    var version := FirstAt(Quoted("version"), text);
    Descriptor(
      if version.Some? then version else if url.Some? then VersionFromBundleUrl(url.value) else None,
      url,
      FirstAt(Quoted("sha256"), text))
  }

  function ParseWingetInstaller(text: string): Descriptor {
    Descriptor(
      FirstAt(Keyed(false, "PackageVersion:", SolidValue), text),
      FirstAt(Keyed(true, "InstallerUrl:", SolidValue), text),
      FirstAt(Keyed(true, "InstallerSha256:", HashValue), text))
  }

  // ---- the rendered descriptors -----------------------------------------------------------------------------

  function AssertInputs(inputs: Inputs): Option<string> {
    if !IsVersion(inputs.version) then Some("not a version")
    else if !IsSha256(inputs.sha256) then Some("not a sha256")
    else if inputs.url == "" then Some("the bundle URL is empty")
    else None
  }

  function Generated(): string {
    " Generated by scripts/package-manifests.ts." + " Do not edit by hand."
  }

  function ShortDescription(): string {
    "Local AI coding orchestration with" + " council planning and human-gated PRs"
  }

  function Homepage(): string {
    "https://www.looptroop.ovh/"
  }

  function FormulaTop(): seq<Row> {
    [ Row(0, "#", Generated()),
      Row(0, "class", " Looptroop < Formula"),
      Row(2, "desc", " \"" + ShortDescription() + "\""),
      Row(2, "homepage", " \"" + Homepage() + "\"") ]
  }

  function FormulaFields(inputs: Inputs): seq<Row> {
    [ Row(2, "url", " \"" + inputs.url + "\""),
      Row(2, "sha256", " \"" + inputs.sha256 + "\"") ]
  }

  function FormulaLivecheck(): seq<Row> {
    [ Row(2, "license", " \"MIT\""),
      Row(0, "", ""),
      Row(2, "livecheck", " do"),
      Row(4, "url", " :stable"),
      Row(4, "strategy", " :github_latest"),
      Row(2, "end", ""),
      Row(0, "", "") ]
  }

  function FormulaDepends(node: string): seq<Row> {
    [ Row(2, "depends_on", " \"gh\""),
      Row(2, "depends_on", " \"node@" + node + "\""),
      Row(2, "uses_from_macos", " \"git\""),
      Row(0, "", "") ]
  }

  function FormulaInstall(node: string): seq<Row> {
    [ Row(2, "def", " install"),
      Row(4, "libexec.install", " Dir[\"*\"]"),
      Row(4, "(libexec/\".install-channel\")", ".write \"homebrew\""),
      Row(4, "(bin/\"looptroop\")", ".write_env_script" + " libexec/\"bin/looptroop\","),
      Row(39, "PATH:", " \"#{formula_opt_bin(\"node@" + node + "\")}:$PATH\""),
      Row(2, "end", ""),
      Row(0, "", "") ]
  }

  function FormulaCaveats(): seq<Row> {
    [ Row(2, "def", " caveats"),
      Row(4, "<<~EOS", ""),
      Row(6, "LoopTroop", " drives OpenCode, which" + " it does not install. Run:"),
      Row(8, "looptroop", " doctor"),
      Row(4, "EOS", ""),
      Row(2, "end", ""),
      Row(0, "", "") ]
  }

  function FormulaTest(): seq<Row> {
    [ Row(2, "test", " do"),
      Row(4, "assert_match", " version.to_s, shell_output(" + "\"#{bin}/looptroop --version\")"),
      Row(2, "end", ""),
      Row(0, "end", "") ]
  }

  function FormulaEnd(node: string): seq<Row> {
    FormulaLivecheck() + FormulaDepends(node) + FormulaInstall(node) + FormulaCaveats() + FormulaTest()
  }

  function RenderHomebrewFormula(node: string, inputs: Inputs): Result<string> {
    if AssertInputs(inputs).Some? then Err(AssertInputs(inputs).value)
    else Ok(FormulaText(node, inputs))
  }

  function FormulaText(node: string, inputs: Inputs): string {
    TextOf(FormulaTop() + FormulaFields(inputs) + FormulaEnd(node))
  }

  function InstallerTop(inputs: Inputs): seq<Row> {
    [ Row(0, "#", Generated()),
      Row(0, "PackageIdentifier:", " LoopTroopAI.LoopTroop"),
      Row(0, "PackageVersion:", " " + inputs.version) ]
  }

  function InstallerKind(): seq<Row> {
    [ Row(0, "MinimumOSVersion:", " 10.0.17763.0"),
      Row(0, "InstallerType:", " zip"),
      Row(0, "NestedInstallerType:", " portable") ]
  }

  function InstallerFiles(inputs: Inputs): seq<Row> {
    [ Row(0, "NestedInstallerFiles:", ""),
      Row(2, "-", " RelativeFilePath: looptroop-" + inputs.version + "-win-x64\\looptroop.exe"),
      Row(4, "PortableCommandAlias:", " looptroop") ]
  }

  function InstallerDependencies(): seq<Row> {
    [ Row(0, "Dependencies:", ""),
      Row(2, "PackageDependencies:", ""),
      Row(4, "-", " PackageIdentifier: Git.Git"),
      Row(4, "-", " PackageIdentifier: GitHub.cli"),
      Row(0, "Installers:", ""),
      Row(2, "-", " Architecture: x64") ]
  }

  function InstallerMiddle(inputs: Inputs): seq<Row> {
    InstallerKind() + (InstallerFiles(inputs) + InstallerDependencies())
  }

  function InstallerFields(inputs: Inputs): seq<Row> {
    [ Row(4, "InstallerUrl:", " " + inputs.url),
      Row(4, "InstallerSha256:", " " + Upper(inputs.sha256)) ]
  }

  function InstallerEnd(): seq<Row> {
    [ Row(0, "ManifestType:", " installer"),
      Row(0, "ManifestVersion:", " 1.6.0") ]
  }

  function RenderWingetInstaller(inputs: Inputs): Result<string> {
    if AssertInputs(inputs).Some? then Err(AssertInputs(inputs).value)
    else Ok(TextOf(InstallerTop(inputs) + InstallerMiddle(inputs) + InstallerFields(inputs) + InstallerEnd()))
  }

  // ---- lines that do not carry the field -----------------------------------------------------------------------

  /** Two words that part before either of them ends. */
  predicate Differ(a: string, b: string) {
    exists i :: 0 <= i < |a| && i < |b| && a[i] != b[i]
  }

  /** A line that is blank, or whose first word cannot be taken for the key. */
  predicate Skips(key: string, line: Row) {
    && IsLine(line.word) && IsLine(line.rest)
    && (line == Row(0, "", "") || (line.word != "" && !IsSpace(line.word[0]) && Differ(line.word, key)))
  }

  lemma {:induction false} SpacesAreTrimmed(n: nat, s: string)
    requires s != "" && !IsSpace(s[0])
    ensures TrimStart(Spaces(n) + s) == s && IsLine(Spaces(n))
  {
    if n == 0 {
      assert Spaces(0) + s == s;
    } else {
      SpacesAreTrimmed(n - 1, s);
      assert (Spaces(n) + s)[1..] == Spaces(n - 1) + s;
    }
  }

  lemma DifferentWords(a: string, b: string, rest: string)
    requires Differ(a, b)
    ensures !StartsWith(a + rest, b)
  {
    var i :| 0 <= i < |a| && i < |b| && a[i] != b[i];
    assert (a + rest)[i] == a[i];
    assert |b| <= |a + rest| ==> (a + rest)[..|b|][i] == a[i];
  }

  lemma WrittenIsLine(line: Row)
    requires IsLine(line.word) && IsLine(line.rest)
    ensures IsLine(RowText(line))
  {
    SpacesAreTrimmed(line.indent, "x");
  }

  /** A reader that starts with `\s*<key>`. */
  ghost predicate LooksFor(read: string -> Option<string>, key: string) {
    forall s {:trigger TrimStart(s)} ::
      read(s) == read(TrimStart(s)) && (read(s).Some? ==> StartsWith(TrimStart(s), key))
  }

  lemma {:induction false} TrimStartTwice(s: string)
    ensures TrimStart(TrimStart(s)) == TrimStart(s)
  {
    if s != "" && IsSpace(s[0]) {
      TrimStartTwice(s[1..]);
    }
  }

  lemma ReadersLook(key: string, value: string -> Option<string>)
    ensures LooksFor(Quoted(key), key) && LooksFor(Keyed(true, key, value), key)
  {
    forall s ensures Quoted(key)(s) == Quoted(key)(TrimStart(s)) {
      TrimStartTwice(s);
    }
    forall s ensures Keyed(true, key, value)(s) == Keyed(true, key, value)(TrimStart(s)) {
      TrimStartTwice(s);
    }
  }

  lemma SkippedLine(read: string -> Option<string>, key: string, line: Row, more: string)
    requires LooksFor(read, key) && Skips(key, line) && line.word != ""
    ensures read(RowText(line) + ['\n'] + more).None?
  {
    var rest := line.rest + ['\n'] + more;
    assert RowText(line) + ['\n'] + more == Spaces(line.indent) + (line.word + rest);
    SpacesAreTrimmed(line.indent, line.word + rest);
    DifferentWords(line.word, key, rest);
  }

  lemma BlankLine(read: string -> Option<string>, key: string, more: string)
    requires LooksFor(read, key)
    ensures FirstAt(read, ['\n'] + more) == FirstAt(read, more)
  {
    var s := ['\n'] + more;
    assert s[1..] == more && IndexOf(s, '\n') == 0;
    assert TrimStart(s) == TrimStart(more);
    assert read(s) == read(more);
  }

  lemma SkipLine(read: string -> Option<string>, key: string, line: Row, more: string)
    requires LooksFor(read, key) && Skips(key, line)
    ensures FirstAt(read, RowText(line) + ['\n'] + more) == FirstAt(read, more)
  {
    if line.word == "" {
      assert RowText(line) == "";
      BlankLine(read, key, more);
      assert "" + ['\n'] + more == ['\n'] + more;
    } else {
      SkippedLine(read, key, line, more);
      WrittenIsLine(line);
      SplitOnce(RowText(line), '\n', more);
      assert (RowText(line) + ['\n'] + more)[|RowText(line)| + 1..] == more;
    }
  }

  predicate AllSkip(key: string, lines: seq<Row>) {
    forall k :: 0 <= k < |lines| ==> Skips(key, lines[k])
  }

  lemma {:induction false} SkipLines(read: string -> Option<string>, key: string, lines: seq<Row>, more: string)
    requires LooksFor(read, key) && AllSkip(key, lines)
    ensures FirstAt(read, TextOf(lines) + more) == FirstAt(read, more)
  {
    if lines == [] {
      assert TextOf(lines) + more == more;
    } else {
      var tail := TextOf(lines[1..]) + more;
      assert TextOf(lines) + more == RowText(lines[0]) + ['\n'] + tail;
      SkipLine(read, key, lines[0], tail);
      SkipLines(read, key, lines[1..], more);
    }
  }

  lemma {:induction false} TextConcat(a: seq<Row>, b: seq<Row>)
    ensures TextOf(a + b) == TextOf(a) + TextOf(b)
  {
    if a == [] {
      assert a + b == b;
    } else {
      assert (a + b)[1..] == a[1..] + b;
      TextConcat(a[1..], b);
    }
  }

  // ---- the lines that carry them -------------------------------------------------------------------------------

  lemma QuotedValueFrom(t: string, u: string)
    requires t == ['"'] + u && IndexOf(u, '"') < |u| && IndexOf(u, '"') > 0
    ensures QuotedValue([' '] + t) == Some(u[..IndexOf(u, '"')])
  {
    assert ([' '] + t)[1..] == t && t[1..] == u;
    assert TrimStart(t) == t;
  }

  lemma QuotedValueOf(value: string, more: string)
    requires value != "" && Without(value, '"')
    ensures QuotedValue(" \"" + value + "\"" + more) == Some(value)
  {
    var u := value + ['"'] + more;
    SplitOnce(value, '"', more);
    assert u[..|value|] == value;
    QuotedValueFrom(['"'] + u, u);
    assert " \"" + value + "\"" + more == [' '] + (['"'] + u);
  }

  lemma FoundQuoted(key: string, indent: nat, value: string, more: string)
    requires key != "" && !IsSpace(key[0]) && value != "" && Without(value, '"')
    ensures FirstAt(Quoted(key), RowText(Row(indent, key, " \"" + value + "\"")) + ['\n'] + more) == Some(value)
  {
    var line := Row(indent, key, " \"" + value + "\"");
    var rest := line.rest + (['\n'] + more);
    assert RowText(line) + ['\n'] + more == Spaces(indent) + (key + rest);
    SpacesAreTrimmed(indent, key + rest);
    assert (key + rest)[|key|..] == rest;
    QuotedValueOf(value, ['\n'] + more);
    assert Quoted(key)(Spaces(indent) + (key + rest)) == Some(value);
  }

  lemma SolidStops(value: string, more: string)
    requires value != "" && (forall i :: 0 <= i < |value| ==> !IsSpace(value[i])) && (more == "" || IsSpace(more[0]))
    ensures SolidValue(" " + value + more) == Some(value)
  {
    var s := " " + value + more;
    assert s[1..] == value + more && TrimStart(value + more) == value + more;
    SolidPrefix(value, more);
  }

  lemma {:induction false} SolidPrefix(value: string, more: string)
    requires (forall i :: 0 <= i < |value| ==> !IsSpace(value[i])) && (more == "" || IsSpace(more[0]))
    ensures Solid(value + more) == value
  {
    if value == "" {
      assert value + more == more;
    } else {
      assert (value + more)[1..] == value[1..] + more;
      SolidPrefix(value[1..], more);
    }
  }

  /** WinGet writes hashes in upper case; they are compared in lower case. */
  lemma {:induction false} LowerOfUpper(s: string)
    requires forall i :: 0 <= i < |s| ==> IsHex(s[i])
    ensures Lower(Upper(s)) == s && forall i :: 0 <= i < |s| ==> IsAnyHex(Upper(s)[i])
  {
    if s != "" {
      LowerOfUpper(s[1..]);
      assert s == [s[0]] + s[1..];
    }
  }

  lemma HashValueOf(sha256: string, more: string)
    requires IsSha256(sha256)
    ensures HashValue(" " + Upper(sha256) + more) == Some(sha256)
  {
    LowerOfUpper(sha256);
    var t := Upper(sha256) + more;
    assert (" " + Upper(sha256) + more)[1..] == t && TrimStart(t) == t;
    assert t[..64] == Upper(sha256);
  }

  lemma FoundKeyed(indented: bool, indent: nat, key: string, value: string -> Option<string>, rest: string, more: string)
    requires key != "" && !IsSpace(key[0]) && (indent > 0 ==> indented)
    requires value(rest + ['\n'] + more).Some?
    ensures FirstAt(Keyed(indented, key, value), RowText(Row(indent, key, rest)) + ['\n'] + more)
         == value(rest + ['\n'] + more)
  {
    var tail := rest + ['\n'] + more;
    assert RowText(Row(indent, key, rest)) + ['\n'] + more == Spaces(indent) + (key + tail);
    SpacesAreTrimmed(indent, key + tail);
    assert (key + tail)[|key|..] == tail;
    assert indent == 0 ==> Spaces(indent) + (key + tail) == key + tail;
  }
}
