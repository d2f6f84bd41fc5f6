/**
 Reading back what was rendered: the Homebrew formula and the WinGet installer manifest.
 */
module ManifestReadBack {
  import opened Wrappers
  import opened Text
  import opened PackageManifests

  // ---- the versions and URLs that reach a descriptor ---------------------------------------------

  lemma VersionChars(s: string)
    requires IsVersion(s)
    ensures forall i :: 0 <= i < |s| ==> IsPreChar(s[i])
    ensures s != "" && IsDigit(s[0])
  {
    TripleFieldShape(s);
    var t := TripleField(s).value;
    assert s[0] == t.major[0];
    JoinChars(t.major, t.minor, t.patch, t.rest);
  }

  lemma JoinChars(a: string, b: string, c: string, d: string)
    requires AllDigits(a) && AllDigits(b) && AllDigits(c) && forall i :: 0 <= i < |d| ==> IsPreChar(d[i])
    ensures var s := a + "." + b + "." + c + d; forall i :: 0 <= i < |s| ==> IsPreChar(s[i])
  {
  }

  predicate IsPlain(c: char) {
    IsPreChar(c) || c == '/' || c == ':'
  }

  predicate AllPlain(s: string) {
    forall i :: 0 <= i < |s| ==> IsPlain(s[i])
  }

  predicate PlainWithoutSlash(s: string) {
    AllPlain(s) && Without(s, '/')
  }

  lemma PlainIsSolid(s: string)
    requires AllPlain(s)
    ensures Without(s, '"') && IsLine(s) && forall i :: 0 <= i < |s| ==> !IsSpace(s[i])
  {
  }

  lemma JoinPlain(a: string, b: string, c: string)
    ensures AllPlain(a) && AllPlain(b) && AllPlain(c) ==> AllPlain(a + b + c)
    ensures Without(a, '/') && Without(b, '/') && Without(c, '/') ==> Without(a + b + c, '/')
  {
  }

  lemma VersionIsPlain(version: string)
    requires IsVersion(version)
    ensures PlainWithoutSlash(version)
  {
    VersionChars(version);
  }

  lemma NamePartsArePlain()
    ensures PlainWithoutSlash("looptroop-") && PlainWithoutSlash("-bundle.tar.gz") && PlainWithoutSlash("-win-x64.zip")
  {
  }

  lemma UrlPartsArePlain()
    ensures AllPlain(Repository()) && Repository() != "" && AllPlain("/releases/download/v") && AllPlain("/")
  {
    assert AllPlain("https://github.com") && AllPlain("/looptroop-ai/LoopTroop");
    JoinPlain("https://github.com", "/looptroop-ai/LoopTroop", "");
    assert Repository() == "https://github.com" + "/looptroop-ai/LoopTroop" + "";
  }

  lemma UrlIsPlain(version: string, asset: string)
    requires IsVersion(version) && AllPlain(asset)
    ensures AllPlain(ReleaseAssetUrl(version, asset)) && ReleaseAssetUrl(version, asset) != ""
  {
    VersionIsPlain(version);
    VersionChars(version);
    UrlPartsArePlain();
    JoinPlain(Repository(), "/releases/download/v", version);
    JoinPlain(Repository() + "/releases/download/v" + version, "/", asset);
  }

  lemma AssetNamesArePlain(version: string)
    requires IsVersion(version)
    ensures AllPlain(BundleFileName(version)) && AllPlain(WindowsBinaryZipName(version))
  {
    VersionIsPlain(version);
    NamePartsArePlain();
    JoinPlain("looptroop-", version, "-bundle.tar.gz");
    JoinPlain("looptroop-", version, "-win-x64.zip");
  }

  lemma NoSlashInBundle(s: string)
    requires IsBundle(s)
    ensures Without(s, '/')
  {
    var version := s[10..|s| - 14];
    VersionIsPlain(version);
    NamePartsArePlain();
    JoinPlain("looptroop-", version, "-bundle.tar.gz");
    CutInThree(s, 10, |s| - 14);
  }

  lemma CutInThree(s: string, i: nat, j: nat)
    requires i <= j <= |s|
    ensures s[..i] + s[i..j] + s[j..] == s
  {
  }

  lemma SlashIsNoBundle(s: string, i: nat)
    requires i < |s| && s[i] == '/'
    ensures !IsBundle(s)
  {
    if IsBundle(s) {
      NoSlashInBundle(s);
    }
  }

  /** Of all the places `looptroop-` occurs in a URL, the one that fits is the file name. */
  lemma {:induction false} BundleAfterSlash(prefix: string, name: string)
    requires IsBundle(name)
    ensures VersionFromBundleUrl(prefix + ['/'] + name) == Some(name[10..|name| - 14])
  {
    var url := prefix + ['/'] + name;
    assert url[|prefix|] == '/';
    SlashIsNoBundle(url, |prefix|);
    if prefix == "" {
      assert url[1..] == name;
    } else {
      assert url[1..] == prefix[1..] + ['/'] + name;
      BundleAfterSlash(prefix[1..], name);
    }
  }

  lemma BundleNameIsBundle(version: string)
    requires IsVersion(version)
    ensures IsBundle(BundleFileName(version))
    ensures BundleFileName(version)[10..|BundleFileName(version)| - 14] == version
  {
    VersionChars(version);
    var name := BundleFileName(version);
    assert |"looptroop-"| == 10 && |"-bundle.tar.gz"| == 14;
    assert name[..10] == "looptroop-" && name[|name| - 14..] == "-bundle.tar.gz";
    assert name[10..|name| - 14] == version;
  }

  /** The URL `checkDescriptorUrl` accepts carries the version, whatever its prerelease. */
  lemma VersionIsInTheUrl(version: string)
    requires IsVersion(version)
    ensures VersionFromBundleUrl(ReleaseAssetUrl(version, BundleFileName(version))) == Some(version)
  {
    VersionChars(version);
    BundleNameIsBundle(version);
    var prefix := Repository() + "/releases/download/v" + version;
    BundleAfterSlash(prefix, BundleFileName(version));
    assert prefix + ['/'] + BundleFileName(version) == prefix + "/" + BundleFileName(version);
  }

  // ---- the lines of the formula ----------------------------------------------------------------------

  lemma LineConcat(a: string, b: string)
    requires IsLine(a) && IsLine(b)
    ensures IsLine(a + b)
  {
  }

  predicate AreLines(lines: seq<Row>) {
    forall k :: 0 <= k < |lines| ==> IsLine(lines[k].word) && IsLine(lines[k].rest)
  }

  /** The first words start with other characters than the key. */
  predicate StartsElsewhere(key: string, lines: seq<Row>) {
    forall k :: 0 <= k < |lines| ==>
      || lines[k] == Row(0, "", "")
      || (lines[k].word != "" && !IsSpace(lines[k].word[0]) && key != "" && lines[k].word[0] != key[0])
  }

  lemma LinesSkip(key: string, lines: seq<Row>)
    requires AreLines(lines) && StartsElsewhere(key, lines)
    ensures AllSkip(key, lines)
  {
  }

  lemma GeneratedIsLine()
    ensures IsLine(Generated())
  {
    LineConcat(" Generated by scripts/package-manifests.ts.", " Do not edit by hand.");
  }

  lemma ShortDescriptionIsLine()
    ensures IsLine(ShortDescription())
  {
    LineConcat("Local AI coding orchestration with", " council planning and human-gated PRs");
  }

  lemma HomepageIsLine()
    ensures IsLine(Homepage())
  {
  }

  lemma QuotedIsLine(s: string)
    requires IsLine(s)
    ensures IsLine(" \"" + s + "\"")
  {
  }

  lemma FormulaTopAreLines()
    ensures AreLines(FormulaTop())
  {
    GeneratedIsLine();
    ShortDescriptionIsLine();
    HomepageIsLine();
    QuotedIsLine(ShortDescription());
    QuotedIsLine(Homepage());
  }

  lemma FormulaTopSkips()
    ensures AllSkip("url", FormulaTop()) && AllSkip("sha256", FormulaTop()) && AllSkip("version", FormulaTop())
  {
    FormulaTopAreLines();
    LinesSkip("url", FormulaTop());
    LinesSkip("sha256", FormulaTop());
    LinesSkip("version", FormulaTop());
  }

  lemma WordsAndRests(lines: seq<Row>)
    requires forall k :: 0 <= k < |lines| ==> IsLine(lines[k].word)
    requires forall k :: 0 <= k < |lines| ==> IsLine(lines[k].rest)
    ensures AreLines(lines)
  {
  }

  lemma FormulaLivecheckWords()
    ensures forall k :: 0 <= k < |FormulaLivecheck()| ==> IsLine(FormulaLivecheck()[k].word)
  {
  }

  lemma FormulaLivecheckRests()
    ensures forall k :: 0 <= k < |FormulaLivecheck()| ==> IsLine(FormulaLivecheck()[k].rest)
  {
  }

  lemma FormulaLivecheckSkips()
    ensures AllSkip("version", FormulaLivecheck())
  {
    FormulaLivecheckWords();
    FormulaLivecheckRests();
    WordsAndRests(FormulaLivecheck());
    LinesSkip("version", FormulaLivecheck());
  }

  lemma FormulaDependsWords(node: string)
    ensures forall k :: 0 <= k < |FormulaDepends(node)| ==> IsLine(FormulaDepends(node)[k].word)
  {
  }

  lemma FormulaDependsRests(node: string)
    requires IsLine(node)
    ensures forall k :: 0 <= k < |FormulaDepends(node)| ==> IsLine(FormulaDepends(node)[k].rest)
  {
    QuotedIsLine("node@" + node);
  }

  lemma FormulaDependsSkips(node: string)
    requires IsLine(node)
    ensures AllSkip("version", FormulaDepends(node))
  {
    FormulaDependsWords(node);
    FormulaDependsRests(node);
    WordsAndRests(FormulaDepends(node));
    LinesSkip("version", FormulaDepends(node));
  }

  lemma FormulaInstallWords(node: string)
    ensures forall k :: 0 <= k < |FormulaInstall(node)| ==> IsLine(FormulaInstall(node)[k].word)
  {
    InstallWordsAreLines();
    SomeWordsAreLines();
  }

  lemma InstallWordsAreLines()
    ensures IsLine("libexec.install") && IsLine("(libexec/\".install-channel\")") && IsLine("(bin/\"looptroop\")")
  {
  }

  lemma SomeWordsAreLines()
    ensures IsLine("def") && IsLine("PATH:") && IsLine("end") && IsLine("")
  {
  }

  lemma FormulaInstallRests(node: string)
    requires IsLine(node)
    ensures forall k :: 0 <= k < |FormulaInstall(node)| ==> IsLine(FormulaInstall(node)[k].rest)
  {
    PathIsLine(node);
    LineConcat(".write_env_script", " libexec/\"bin/looptroop\",");
  }

  lemma FormulaInstallSkips(node: string)
    requires IsLine(node)
    ensures AllSkip("version", FormulaInstall(node))
  {
    FormulaInstallWords(node);
    FormulaInstallRests(node);
    WordsAndRests(FormulaInstall(node));
    LinesSkip("version", FormulaInstall(node));
  }

  lemma FormulaCaveatsWords()
    ensures forall k :: 0 <= k < |FormulaCaveats()| ==> IsLine(FormulaCaveats()[k].word)
  {
  }

  lemma FormulaCaveatsRests()
    ensures forall k :: 0 <= k < |FormulaCaveats()| ==> IsLine(FormulaCaveats()[k].rest)
  {
    LineConcat(" drives OpenCode, which", " it does not install. Run:");
  }

  lemma FormulaCaveatsSkips()
    ensures AllSkip("version", FormulaCaveats())
  {
    FormulaCaveatsWords();
    FormulaCaveatsRests();
    WordsAndRests(FormulaCaveats());
    LinesSkip("version", FormulaCaveats());
  }

  lemma FormulaTestWords()
    ensures forall k :: 0 <= k < |FormulaTest()| ==> IsLine(FormulaTest()[k].word)
  {
  }

  lemma FormulaTestRests()
    ensures forall k :: 0 <= k < |FormulaTest()| ==> IsLine(FormulaTest()[k].rest)
  {
    LineConcat(" version.to_s, shell_output(", "\"#{bin}/looptroop --version\")");
  }

  lemma FormulaTestSkips()
    ensures AllSkip("version", FormulaTest())
  {
    FormulaTestWords();
    FormulaTestRests();
    WordsAndRests(FormulaTest());
    LinesSkip("version", FormulaTest());
  }

  lemma PathIsLine(node: string)
    requires IsLine(node)
    ensures IsLine(" \"#{formula_opt_bin(\"node@" + node + "\")}:$PATH\"")
  {
  }

  // ---- the formula reads back ---------------------------------------------------------------------------

  lemma SkipsConcat(key: string, a: seq<Row>, b: seq<Row>)
    requires AllSkip(key, a) && AllSkip(key, b)
    ensures AllSkip(key, a + b)
  {
  }

  lemma FormulaEndSkips(node: string)
    requires IsLine(node)
    ensures AllSkip("version", FormulaEnd(node))
  {
    FormulaLivecheckSkips();
    FormulaDependsSkips(node);
    FormulaInstallSkips(node);
    FormulaCaveatsSkips();
    FormulaTestSkips();
    SkipsConcat("version", FormulaLivecheck(), FormulaDepends(node));
    SkipsConcat("version", FormulaLivecheck() + FormulaDepends(node), FormulaInstall(node));
    SkipsConcat("version", FormulaLivecheck() + FormulaDepends(node) + FormulaInstall(node), FormulaCaveats());
    SkipsConcat("version", FormulaLivecheck() + FormulaDepends(node) + FormulaInstall(node) + FormulaCaveats(), FormulaTest());
  }

  /** What the formula's two field lines can carry. */
  predicate IsQuotable(s: string) {
    s != "" && Without(s, '"') && IsLine(s)
  }

  lemma FieldLine(key: string, value: string, line: Row)
    requires IsQuotable(value) && (key == "url" || key == "sha256") && line == Row(2, key, " \"" + value + "\"")
    ensures Skips("version", line)
    ensures key == "url" ==> Skips("sha256", line)
  {
    QuotedIsLine(value);
    assert line.word[0] != 'v';
    assert Differ(line.word, "version");
    assert key == "url" ==> line.word[0] != 's';
  }

  lemma TextOfCons(line: Row, more: seq<Row>)
    ensures TextOf([line] + more) == RowText(line) + ['\n'] + TextOf(more)
  {
  }

  /** Lines, two lines and more lines. */
  function Around(top: seq<Row>, first: Row, second: Row, end: seq<Row>): string {
    TextOf(top) + (RowText(first) + ['\n'] + (RowText(second) + ['\n'] + TextOf(end)))
  }

  lemma TextAround(top: seq<Row>, first: Row, second: Row, end: seq<Row>)
    ensures TextOf(top + [first, second] + end) == Around(top, first, second, end)
  {
    assert top + [first, second] + end == top + ([first] + ([second] + end));
    TextConcat(top, [first] + ([second] + end));
    TextOfCons(first, [second] + end);
    TextOfCons(second, end);
  }

  lemma NoFieldThere(read: string -> Option<string>, key: string, lines: seq<Row>)
    requires LooksFor(read, key) && AllSkip(key, lines) && key != ""
    ensures FirstAt(read, TextOf(lines)).None?
  {
    SkipLines(read, key, lines, "");
    assert TextOf(lines) + "" == TextOf(lines);
    assert TrimStart("") == "";
    assert IndexOf("", '\n') == 0;
  }

  lemma ReadFirst(read: string -> Option<string>, key: string, top: seq<Row>, first: Row, second: Row, end: seq<Row>)
    requires LooksFor(read, key) && AllSkip(key, top)
    ensures FirstAt(read, Around(top, first, second, end))
         == FirstAt(read, RowText(first) + ['\n'] + (RowText(second) + ['\n'] + TextOf(end)))
  {
    SkipLines(read, key, top, RowText(first) + ['\n'] + (RowText(second) + ['\n'] + TextOf(end)));
  }

  lemma ReadSecond(read: string -> Option<string>, key: string, top: seq<Row>, first: Row, second: Row, end: seq<Row>)
    requires LooksFor(read, key) && AllSkip(key, top) && Skips(key, first)
    ensures FirstAt(read, Around(top, first, second, end)) == FirstAt(read, RowText(second) + ['\n'] + TextOf(end))
  {
    ReadFirst(read, key, top, first, second, end);
    SkipLine(read, key, first, RowText(second) + ['\n'] + TextOf(end));
  }

  lemma ReadNone(read: string -> Option<string>, key: string, top: seq<Row>, first: Row, second: Row, end: seq<Row>)
    requires LooksFor(read, key) && AllSkip(key, top) && Skips(key, first) && Skips(key, second) && AllSkip(key, end)
    requires key != ""
    ensures FirstAt(read, Around(top, first, second, end)) == None
  {
    ReadSecond(read, key, top, first, second, end);
    SkipLine(read, key, second, TextOf(end));
    NoFieldThere(read, key, end);
  }

  function UrlRow(url: string): Row {
    Row(2, "url", " \"" + url + "\"")
  }

  function HashRow(sha256: string): Row {
    Row(2, "sha256", " \"" + sha256 + "\"")
  }

  lemma FormulaHasUrl(top: seq<Row>, url: string, second: Row, end: seq<Row>)
    requires IsQuotable(url) && AllSkip("url", top)
    ensures FirstAt(Quoted("url"), Around(top, UrlRow(url), second, end)) == Some(url)
  {
    FieldLine("url", url, UrlRow(url));
    ReadersLook("url", SolidValue);
    ReadFirst(Quoted("url"), "url", top, UrlRow(url), second, end);
    FoundQuoted("url", 2, url, RowText(second) + ['\n'] + TextOf(end));
  }

  lemma FormulaHasHash(top: seq<Row>, url: string, sha256: string, end: seq<Row>)
    requires IsQuotable(url) && IsQuotable(sha256) && AllSkip("sha256", top)
    ensures FirstAt(Quoted("sha256"), Around(top, UrlRow(url), HashRow(sha256), end)) == Some(sha256)
  {
    FieldLine("url", url, UrlRow(url));
    FieldLine("sha256", sha256, HashRow(sha256));
    ReadersLook("sha256", SolidValue);
    ReadSecond(Quoted("sha256"), "sha256", top, UrlRow(url), HashRow(sha256), end);
    FoundQuoted("sha256", 2, sha256, TextOf(end));
  }

  lemma FormulaHasNoVersion(top: seq<Row>, url: string, sha256: string, end: seq<Row>)
    requires IsQuotable(url) && IsQuotable(sha256) && AllSkip("version", top) && AllSkip("version", end)
    ensures FirstAt(Quoted("version"), Around(top, UrlRow(url), HashRow(sha256), end)) == None
  {
    FieldLine("url", url, UrlRow(url));
    FieldLine("sha256", sha256, HashRow(sha256));
    ReadersLook("version", SolidValue);
    ReadNone(Quoted("version"), "version", top, UrlRow(url), HashRow(sha256), end);
  }

  lemma FormulaReads(top: seq<Row>, url: string, sha256: string, end: seq<Row>)
    requires IsQuotable(url) && IsQuotable(sha256)
    requires AllSkip("url", top) && AllSkip("sha256", top) && AllSkip("version", top) && AllSkip("version", end)
    ensures ParseHomebrew(Around(top, UrlRow(url), HashRow(sha256), end))
         == Descriptor(VersionFromBundleUrl(url), Some(url), Some(sha256))
  {
    FormulaHasUrl(top, url, HashRow(sha256), end);
    FormulaHasHash(top, url, sha256, end);
    FormulaHasNoVersion(top, url, sha256, end);
  }

  lemma HashIsQuotable(sha256: string)
    requires IsSha256(sha256)
    ensures IsQuotable(sha256)
  {
  }

  lemma FormulaParses(node: string, inputs: Inputs)
    requires IsQuotable(inputs.url) && IsQuotable(inputs.sha256) && IsLine(node)
    ensures ParseHomebrew(FormulaText(node, inputs))
         == Descriptor(VersionFromBundleUrl(inputs.url), Some(inputs.url), Some(inputs.sha256))
  {
    FormulaTopSkips();
    FormulaEndSkips(node);
    FormulaReads(FormulaTop(), inputs.url, inputs.sha256, FormulaEnd(node));
    FormulaIsAround(node, inputs);
  }

  lemma AcceptedIsReadable(inputs: Inputs)
    requires IsVersion(inputs.version) && IsSha256(inputs.sha256)
    requires CheckDescriptorUrl(inputs.url, inputs.version, None).None?
    ensures AssertInputs(inputs).None? && IsQuotable(inputs.url) && IsQuotable(inputs.sha256)
    ensures VersionFromBundleUrl(inputs.url) == Some(inputs.version)
  {
    AcceptedUrl(inputs, None);
    HashIsQuotable(inputs.sha256);
    VersionIsInTheUrl(inputs.version);
  }

  /** The Homebrew formula: URL and hash come back, and the version out of the URL. */
  lemma HomebrewReadsBack(node: string, inputs: Inputs)
    requires IsVersion(inputs.version) && IsSha256(inputs.sha256) && IsLine(node)
    requires CheckDescriptorUrl(inputs.url, inputs.version, None).None?
    ensures RenderHomebrewFormula(node, inputs).Ok?
    ensures ParseHomebrew(RenderHomebrewFormula(node, inputs).value)
         == Descriptor(Some(inputs.version), Some(inputs.url), Some(inputs.sha256))
  {
    AcceptedIsReadable(inputs);
    FormulaParses(node, inputs);
  }

  lemma FormulaIsAround(node: string, inputs: Inputs)
    ensures FormulaText(node, inputs) == Around(FormulaTop(), UrlRow(inputs.url), HashRow(inputs.sha256), FormulaEnd(node))
  {
    assert FormulaFields(inputs) == [UrlRow(inputs.url), HashRow(inputs.sha256)];
    TextAround(FormulaTop(), UrlRow(inputs.url), HashRow(inputs.sha256), FormulaEnd(node));
  }

  lemma AcceptedUrl(inputs: Inputs, asset: Option<string>)
    requires IsVersion(inputs.version) && (asset.Some? ==> AllPlain(asset.value))
    requires CheckDescriptorUrl(inputs.url, inputs.version, asset).None?
    ensures IsQuotable(inputs.url) && forall i :: 0 <= i < |inputs.url| ==> !IsSpace(inputs.url[i])
    ensures asset.None? ==> inputs.url == ReleaseAssetUrl(inputs.version, BundleFileName(inputs.version))
  {
    VersionChars(inputs.version);
    AssetNamesArePlain(inputs.version);
    UrlIsPlain(inputs.version, if asset.Some? then asset.value else BundleFileName(inputs.version));
    PlainIsSolid(inputs.url);
  }

  // ---- the WinGet installer manifest reads back ------------------------------------------------------------

  lemma SkipTwoAtStart(key: string, a: Row, b: Row, line: Row, value: string, more: string)
    requires a.indent == 0 && Differ(a.word, key) && IsLine(a.word) && IsLine(a.rest)
    requires b.indent == 0 && Differ(b.word, key) && IsLine(b.word) && IsLine(b.rest)
    requires key != "" && !IsSpace(key[0]) && line == Row(0, key, " " + value)
    requires value != "" && forall i :: 0 <= i < |value| ==> !IsSpace(value[i])
    ensures FirstAt(Keyed(false, key, SolidValue), TextOf([a, b, line]) + more) == Some(value)
  {
    var fromC := RowText(line) + ['\n'] + more;
    TextOfThree(a, b, line, more);
    SkipAtStart(key, a, RowText(b) + ['\n'] + fromC);
    SkipAtStart(key, b, fromC);
    SolidStops(value, ['\n'] + more);
    assert " " + value + (['\n'] + more) == line.rest + ['\n'] + more;
    FoundKeyed(false, 0, key, SolidValue, line.rest, more);
  }

  lemma InstallerKeys()
    ensures IsLine("PackageIdentifier:") && IsLine(" LoopTroopAI.LoopTroop") && IsLine("PackageVersion:")
    ensures "#"[0] != "PackageVersion:"[0] && "PackageIdentifier:"[7] != "PackageVersion:"[7]
    ensures !IsSpace("PackageVersion:"[0])
  {
  }

  lemma InstallerTopReads(inputs: Inputs, more: string)
    requires IsVersion(inputs.version)
    ensures FirstAt(Keyed(false, "PackageVersion:", SolidValue), TextOf(InstallerTop(inputs)) + more) == Some(inputs.version)
  {
    var top := InstallerTop(inputs);
    InstallerTopWords(inputs);
    VersionIsPlain(inputs.version);
    PlainIsSolid(inputs.version);
    VersionChars(inputs.version);
    SkipTwoAtStart("PackageVersion:", top[0], top[1], top[2], inputs.version, more);
  }

  lemma InstallerTopWords(inputs: Inputs)
    ensures var top := InstallerTop(inputs);
      && |top| == 3 && top == [top[0], top[1], top[2]] && top[2] == Row(0, "PackageVersion:", " " + inputs.version)
      && !IsSpace("PackageVersion:"[0])
      && (forall k :: 0 <= k < 2 ==>
            top[k].indent == 0 && Differ(top[k].word, "PackageVersion:") && IsLine(top[k].word) && IsLine(top[k].rest))
  {
    GeneratedIsLine();
    InstallerKeys();
    assert Differ("#", "PackageVersion:") && Differ("PackageIdentifier:", "PackageVersion:");
  }

  lemma TextOfThree(a: Row, b: Row, c: Row, more: string)
    ensures TextOf([a, b, c]) + more
         == RowText(a) + ['\n'] + (RowText(b) + ['\n'] + (RowText(c) + ['\n'] + more))
  {
    assert [a, b, c] == [a] + ([b] + ([c] + []));
    TextOfCons(a, [b] + ([c] + []));
    TextOfCons(b, [c] + []);
    TextOfCons(c, []);
  }

  /** A line whose first word parts from the key, for a reader without `\s*`. */
  lemma SkipAtStart(key: string, line: Row, more: string)
    requires line.indent == 0 && Differ(line.word, key) && IsLine(line.word) && IsLine(line.rest)
    ensures FirstAt(Keyed(false, key, SolidValue), RowText(line) + ['\n'] + more)
         == FirstAt(Keyed(false, key, SolidValue), more)
  {
    DifferentWords(line.word, key, line.rest + ['\n'] + more);
    assert Spaces(0) == "";
    assert RowText(line) + ['\n'] + more == line.word + (line.rest + ['\n'] + more);
    WrittenIsLine(line);
    SplitOnce(RowText(line), '\n', more);
    assert (RowText(line) + ['\n'] + more)[|RowText(line)| + 1..] == more;
  }

  predicate IsInstallerKey(key: string) {
    key == "InstallerUrl:" || key == "InstallerSha256:"
  }

  /** Words that part from both keys, at their first letter or behind `Installer`. */
  lemma InstallerWord(key: string, word: string)
    requires IsInstallerKey(key) && word != ""
    requires word[0] != 'I' || (|word| > 9 && word[9] != 'U' && word[9] != 'S')
    ensures Differ(word, key)
  {
    assert key[0] == 'I' && (key[9] == 'U' || key[9] == 'S');
    if word[0] != 'I' {
      assert word[0] != key[0];
    } else {
      assert word[9] != key[9];
    }
  }

  /** Every first word of these lines parts from both keys. */
  predicate PartsFromKeys(lines: seq<Row>) {
    forall k :: 0 <= k < |lines| ==>
      && lines[k].word != "" && !IsSpace(lines[k].word[0])
      && (lines[k].word[0] != 'I' || (|lines[k].word| > 9 && lines[k].word[9] != 'U' && lines[k].word[9] != 'S'))
  }

  lemma InstallerSkips(key: string, lines: seq<Row>)
    requires IsInstallerKey(key) && PartsFromKeys(lines) && AreLines(lines)
    ensures AllSkip(key, lines)
  {
    forall k | 0 <= k < |lines| ensures Skips(key, lines[k]) {
      InstallerWord(key, lines[k].word);
    }
  }

  lemma InstallerTopParts(inputs: Inputs)
    requires IsLine(inputs.version)
    ensures PartsFromKeys(InstallerTop(inputs)) && AreLines(InstallerTop(inputs))
  {
    GeneratedIsLine();
    InstallerKeys();
    LineConcat(" ", inputs.version);
  }

  lemma InstallerKindParts()
    ensures PartsFromKeys(InstallerKind())
  {
  }

  lemma InstallerKindWords()
    ensures forall k :: 0 <= k < |InstallerKind()| ==> IsLine(InstallerKind()[k].word)
  {
  }

  lemma InstallerKindRests()
    ensures forall k :: 0 <= k < |InstallerKind()| ==> IsLine(InstallerKind()[k].rest)
  {
  }

  lemma InstallerFilesParts(inputs: Inputs)
    ensures PartsFromKeys(InstallerFiles(inputs))
  {
  }

  lemma InstallerFilesWords(inputs: Inputs)
    ensures forall k :: 0 <= k < |InstallerFiles(inputs)| ==> IsLine(InstallerFiles(inputs)[k].word)
  {
  }

  lemma InstallerFilesRests(inputs: Inputs)
    requires IsLine(inputs.version)
    ensures forall k :: 0 <= k < |InstallerFiles(inputs)| ==> IsLine(InstallerFiles(inputs)[k].rest)
  {
    RelativePathIsLine(inputs.version);
  }

  lemma RelativePathIsLine(version: string)
    requires IsLine(version)
    ensures IsLine(" RelativeFilePath: looptroop-" + version + "-win-x64\\looptroop.exe")
  {
    LineConcat(" RelativeFilePath: looptroop-", version);
    LineConcat(" RelativeFilePath: looptroop-" + version, "-win-x64\\looptroop.exe");
  }

  lemma InstallerDependenciesWords()
    ensures PartsFromKeys(InstallerDependencies())
  {
  }

  lemma InstallerDependenciesLabels()
    ensures forall k :: 0 <= k < |InstallerDependencies()| ==> IsLine(InstallerDependencies()[k].word)
  {
  }

  lemma InstallerDependenciesRests()
    ensures forall k :: 0 <= k < |InstallerDependencies()| ==> IsLine(InstallerDependencies()[k].rest)
  {
  }

  lemma InstallerFrontSkips(key: string, inputs: Inputs)
    requires IsInstallerKey(key) && IsLine(inputs.version)
    ensures AllSkip(key, InstallerTop(inputs) + InstallerMiddle(inputs))
  {
    InstallerTopParts(inputs);
    InstallerSkips(key, InstallerTop(inputs));
    InstallerKindParts();
    InstallerKindWords();
    InstallerKindRests();
    WordsAndRests(InstallerKind());
    InstallerSkips(key, InstallerKind());
    InstallerFilesParts(inputs);
    InstallerFilesWords(inputs);
    InstallerFilesRests(inputs);
    WordsAndRests(InstallerFiles(inputs));
    InstallerSkips(key, InstallerFiles(inputs));
    InstallerDependenciesWords();
    InstallerDependenciesLabels();
    InstallerDependenciesRests();
    WordsAndRests(InstallerDependencies());
    InstallerSkips(key, InstallerDependencies());
    SkipsConcat(key, InstallerFiles(inputs), InstallerDependencies());
    SkipsConcat(key, InstallerKind(), InstallerFiles(inputs) + InstallerDependencies());
    SkipsConcat(key, InstallerTop(inputs), InstallerMiddle(inputs));
  }

  lemma KeyedReads(key: string, value: string -> Option<string>, front: seq<Row>, first: Row, second: Row, end: seq<Row>)
    requires AllSkip(key, front)
    ensures var text := Around(front, first, second, end);
      && FirstAt(Keyed(true, key, value), text)
      == FirstAt(Keyed(true, key, value), RowText(first) + ['\n'] + (RowText(second) + ['\n'] + TextOf(end)))
      && (Skips(key, first) ==>
            FirstAt(Keyed(true, key, value), text) == FirstAt(Keyed(true, key, value), RowText(second) + ['\n'] + TextOf(end)))
  {
    ReadersLook(key, value);
    ReadFirst(Keyed(true, key, value), key, front, first, second, end);
    if Skips(key, first) {
      ReadSecond(Keyed(true, key, value), key, front, first, second, end);
    }
  }

  lemma FoundSolid(key: string, value: string, more: string)
    requires key != "" && !IsSpace(key[0])
    requires value != "" && forall i :: 0 <= i < |value| ==> !IsSpace(value[i])
    ensures FirstAt(Keyed(true, key, SolidValue), RowText(Row(4, key, " " + value)) + ['\n'] + more) == Some(value)
  {
    var rest := " " + value;
    SolidStops(value, ['\n'] + more);
    assert " " + value + (['\n'] + more) == rest + ['\n'] + more;
    FoundKeyed(true, 4, key, SolidValue, rest, more);
  }

  lemma FoundHash(key: string, sha256: string, more: string)
    requires key != "" && !IsSpace(key[0]) && IsSha256(sha256)
    ensures FirstAt(Keyed(true, key, HashValue), RowText(Row(4, key, " " + Upper(sha256))) + ['\n'] + more) == Some(sha256)
  {
    var rest := " " + Upper(sha256);
    HashValueOf(sha256, ['\n'] + more);
    assert " " + Upper(sha256) + (['\n'] + more) == rest + ['\n'] + more;
    FoundKeyed(true, 4, key, HashValue, rest, more);
  }

  lemma InstallerFieldsRead(front: seq<Row>, url: string, sha256: string, end: seq<Row>)
    requires AllSkip("InstallerUrl:", front) && AllSkip("InstallerSha256:", front)
    requires IsQuotable(url) && (forall i :: 0 <= i < |url| ==> !IsSpace(url[i])) && IsSha256(sha256)
    ensures var text := Around(front, Row(4, "InstallerUrl:", " " + url),
                               Row(4, "InstallerSha256:", " " + Upper(sha256)), end);
      && FirstAt(Keyed(true, "InstallerUrl:", SolidValue), text) == Some(url)
      && FirstAt(Keyed(true, "InstallerSha256:", HashValue), text) == Some(sha256)
  {
    var first, second := Row(4, "InstallerUrl:", " " + url), Row(4, "InstallerSha256:", " " + Upper(sha256));
    assert "InstallerUrl:"[0] == 'I' && "InstallerSha256:"[0] == 'I';
    UrlLineSkips(first, url);
    KeyedReads("InstallerUrl:", SolidValue, front, first, second, end);
    FoundSolid("InstallerUrl:", url, RowText(second) + ['\n'] + TextOf(end));
    KeyedReads("InstallerSha256:", HashValue, front, first, second, end);
    FoundHash("InstallerSha256:", sha256, TextOf(end));
  }

  lemma UrlLineSkips(line: Row, url: string)
    requires line == Row(4, "InstallerUrl:", " " + url) && IsLine(url)
    ensures Skips("InstallerSha256:", line)
  {
    LineConcat(" ", url);
    assert IsLine("InstallerUrl:");
    assert line.word[9] == 'U' && "InstallerSha256:"[9] == 'S';
    assert Differ(line.word, "InstallerSha256:");
  }

  /** The WinGet installer manifest: version, URL and hash come back, the hash in lower case. */
  lemma WingetReadsBack(inputs: Inputs)
    requires IsVersion(inputs.version) && IsSha256(inputs.sha256)
    requires CheckDescriptorUrl(inputs.url, inputs.version, Some(WindowsBinaryZipName(StripV(inputs.version)))).None?
    ensures RenderWingetInstaller(inputs).Ok?
    ensures ParseWingetInstaller(RenderWingetInstaller(inputs).value)
         == Descriptor(Some(inputs.version), Some(inputs.url), Some(inputs.sha256))
  {
    VersionChars(inputs.version);
    VersionIsPlain(inputs.version);
    PlainIsSolid(inputs.version);
    AssetNamesArePlain(inputs.version);
    AcceptedUrl(inputs, Some(WindowsBinaryZipName(StripV(inputs.version))));
    WingetText(inputs);
    InstallerFrontSkips("InstallerUrl:", inputs);
    InstallerFrontSkips("InstallerSha256:", inputs);
    InstallerFieldsRead(InstallerTop(inputs) + InstallerMiddle(inputs), inputs.url, inputs.sha256, InstallerEnd());
  }

  lemma WingetText(inputs: Inputs)
    requires AssertInputs(inputs).None?
    ensures var text := RenderWingetInstaller(inputs).value;
      && text == Around(InstallerTop(inputs) + InstallerMiddle(inputs), Row(4, "InstallerUrl:", " " + inputs.url),
                        Row(4, "InstallerSha256:", " " + Upper(inputs.sha256)), InstallerEnd())
      && FirstAt(Keyed(false, "PackageVersion:", SolidValue), text) == Some(inputs.version)
  {
    TextAround(InstallerTop(inputs) + InstallerMiddle(inputs), InstallerFields(inputs)[0], InstallerFields(inputs)[1], InstallerEnd());
    FrontThenRest(InstallerTop(inputs), InstallerMiddle(inputs), InstallerFields(inputs), InstallerEnd());
    InstallerTopReads(inputs, TextOf(InstallerMiddle(inputs) + InstallerFields(inputs) + InstallerEnd()));
  }

  lemma FrontThenRest(a: seq<Row>, b: seq<Row>, c: seq<Row>, d: seq<Row>)
    ensures TextOf(a + b + c + d) == TextOf(a) + TextOf(b + c + d)
  {
    assert a + b + c + d == a + (b + c + d);
    TextConcat(a, b + c + d);
  }
}
