/**
 The changelog rewrite of a version bump: `bumpChangelog` of `scripts/version-bump.ts`.

 A changelog is its lines; `BumpChangelog` at the end is the same rewrite on the text. The
 expressions `^##\s+…` are read within one line.
 */
module ChangelogBump {
  import opened Wrappers
  import opened Text
  import opened Versions
  import opened Changelog

  // ---- the scanners -----------------------------------------------------------------------------

  /** `^##\s+Unreleased\s*$` */
  predicate IsUnreleased(line: string) {
    var text := TextAfter("##", line);
    text.Some? && TrimEnd(text.value) == "Unreleased"
  }

  /** `^##\s+`: a `##` alone is a heading unless it ends the text. */
  predicate IsHeading(line: string, last: bool) {
    StartsWith(line, "##") && (if |line| == 2 then !last else IsSpace(line[2]))
  }

  /** `^##\s+<version>\s*\(` */
  predicate Announces(line: string, version: string) {
    var text := TextAfter("##", line);
    text.Some? && Reads(text.value, version)
  }

  predicate Reads(text: string, version: string) {
    StartsWith(text, version) && StartsWith(TrimStart(text[|version|..]), "(")
  }

  predicate AnyAnnounces(lines: seq<string>, version: string) {
    exists i :: 0 <= i < |lines| && Announces(lines[i], version)
  }

  function CountUnreleased(lines: seq<string>): nat {
    if lines == [] then 0 else (if IsUnreleased(lines[0]) then 1 else 0) + CountUnreleased(lines[1..])
  }

  function FirstUnreleased(lines: seq<string>): (h: nat)
    ensures h <= |lines|
    ensures CountUnreleased(lines) > 0 ==> h < |lines| && IsUnreleased(lines[h])
    ensures forall i :: 0 <= i < h ==> !IsUnreleased(lines[i])
  {
    if lines == [] || IsUnreleased(lines[0]) then 0 else 1 + FirstUnreleased(lines[1..])
  }

  function NextHeading(lines: seq<string>): (n: nat)
    ensures n <= |lines|
    ensures n < |lines| ==> IsHeading(lines[n], n == |lines| - 1)
    ensures forall i :: 0 <= i < n ==> !IsHeading(lines[i], i == |lines| - 1)
  {
    if lines == [] || IsHeading(lines[0], |lines| == 1) then 0 else 1 + NextHeading(lines[1..])
  }

  // ---- the released body --------------------------------------------------------------------------

  /** The blank lines the heading's own expression takes with it. */
  function DropBlank(lines: seq<string>): seq<string> {
    if lines != [] && TrimEnd(lines[0]) == "" then DropBlank(lines[1..]) else lines
  }

  /** `s.replace(t, '')` within one line. */
  function RemoveFirst(s: string, t: string): string {
    var i := Find(s, t);
    if i < |s| then s[..i] + s[i + |t|..] else s
  }

  /** `body.replace(note, '')`: only the first occurrence goes. */
  function DropNote(note: string, lines: seq<string>): seq<string> {
    if lines == [] then []
    else if Find(lines[0], note) < |lines[0]| then [RemoveFirst(lines[0], note)] + lines[1..]
    else [lines[0]] + DropNote(note, lines[1..])
  }

  /** `.replace(/^\n+/, …)` */
  function DropEmpty(lines: seq<string>): seq<string> {
    if lines != [] && lines[0] == "" then DropEmpty(lines[1..]) else lines
  }

  /** `.trimEnd()` over the joined lines. */
  function TrimLines(lines: seq<string>): seq<string> {
    if lines == [] then []
    else
      var last := TrimEnd(lines[|lines| - 1]);
      if last == "" then TrimLines(lines[..|lines| - 1]) else lines[..|lines| - 1] + [last]
  }

  /** The body without the note. */
  function Bare(note: string, body: seq<string>): seq<string> {
    DropNote(note, DropBlank(body))
  }

  function ReleasedBody(note: string, body: seq<string>): seq<string> {
    TrimLines(DropEmpty(Bare(note, body)))
  }

  // ---- the rewrite ----------------------------------------------------------------------------------

  datatype Bump = Bump(lines: seq<string>, released: seq<string>)

  function Heading(version: string, date: string): string {
    "## " + version + " (" + date + ")"
  }

  function FreshUnreleased(note: string): seq<string> {
    ["## Unreleased", "", note, ""]
  }

  function ReleasedSection(version: string, date: string, body: seq<string>): seq<string> {
    [Heading(version, date), "", ""] + body + [""]
  }

  /** The lines under the heading, up to the next heading, and from there on. */
  function BodyOf(lines: seq<string>): seq<string>
    requires CountUnreleased(lines) > 0
  {
    var rest := lines[FirstUnreleased(lines) + 1..];
    rest[..NextHeading(rest)]
  }

  function TailOf(lines: seq<string>): seq<string>
    requires CountUnreleased(lines) > 0
  {
    var rest := lines[FirstUnreleased(lines) + 1..];
    rest[NextHeading(rest)..]
  }

  /** The text after the released section, whose last newline is followed by the rest of the file. */
  function TailText(tail: seq<string>): seq<string> {
    if tail == [] then [""] else tail
  }

  function Rewritten(note: string, before: seq<string>, released: seq<string>, tail: seq<string>): seq<string> {
    before + FreshUnreleased(note) + released + TailText(tail)
  }

  function BumpLines(note: string, lines: seq<string>, version: string, date: string): (r: Result<Bump>)
    ensures r.Ok? ==> CountUnreleased(lines) == 1
  {
    if CountUnreleased(lines) == 0 then Err("no Unreleased heading")
    else if CountUnreleased(lines) > 1 then Err("more than one Unreleased heading")
    else if AnyAnnounces(lines, version) then Err("this version has been released before")
    else
      var released := ReleasedSection(version, date, ReleasedBody(note, BodyOf(lines)));
      if NotesFor(ParseLines(released), version).Err? then Err("the notes would not render")
      else Ok(Bump(Rewritten(note, lines[..FirstUnreleased(lines)], released, TailOf(lines)), released))
  }

  // ---- lines the parser does not see ---------------------------------------------------------------

  /** What is left of the lines when those without meaning are taken out. */
  function Content(lines: seq<Line>): seq<Line> {
    if lines == [] then []
    else if lines[0] == OtherLine then Content(lines[1..])
    else [lines[0]] + Content(lines[1..])
  }

  lemma {:induction false} ContentConcat(a: seq<Line>, b: seq<Line>)
    ensures Content(a + b) == Content(a) + Content(b)
  {
    if a == [] {
      assert a + b == b;
    } else {
      assert (a + b)[1..] == a[1..] + b;
      ContentConcat(a[1..], b);
    }
  }

  lemma {:induction false} RunSeesContent(p: Parser, lines: seq<Line>)
    ensures Feed(p, lines) == Feed(p, Content(lines))
    decreases lines
  {
    if lines != [] {
      RunSeesContent(Step(p, lines[0]), lines[1..]);
      if lines[0] == OtherLine {
        assert Step(p, OtherLine) == p;
      } else {
        assert Content(lines)[1..] == Content(lines[1..]);
      }
    }
  }

  function Opened(version: string, date: Option<string>): Parser {
    Parser([], Some(Draft(version, date, [], None)))
  }

  lemma ReadFromHeading(before: seq<Line>, version: string, date: Option<string>, after: seq<Line>)
    ensures ReadAll(before + [ReleaseLine(version, date)] + after)
         == ReadAll(before) + Finish(Feed(Opened(version, date), after))
  {
    var line := ReleaseLine(version, date);
    assert before + [line] + after == before + ([line] + after) && ([line] + after)[1..] == after;
    RunConcat(Parser([], None), before, [line] + after);
    RunFrame(ReadAll(before), Opened(version, date).current, after);
  }

  lemma ReadFromTwoHeadings(before: seq<Line>, version: string, date: Option<string>, after: seq<Line>)
    ensures ReadAll(before + [ReleaseLine("Unreleased", None), ReleaseLine(version, date)] + after)
         == ReadAll(before) + [Release("Unreleased", None, [])] + Finish(Feed(Opened(version, date), after))
  {
    var u, v := ReleaseLine("Unreleased", None), ReleaseLine(version, date);
    assert before + [u, v] + after == (before + [u]) + [v] + after;
    ReadFromHeading(before + [u], version, date, after);
    assert before + [u] + [] == before + [u];
    ReadFromHeading(before, "Unreleased", None, []);
    assert Closed(Draft("Unreleased", None, [], None)) == Release("Unreleased", None, []);
  }

  /** A changelog with a heading for the new version put in behind `## Unreleased`. */
  lemma ReadWithHeading(before: seq<Line>, after: seq<Line>, version: string, date: Option<string>)
    ensures var was := ReadAll(before + [ReleaseLine("Unreleased", None)] + after);
      var k := |ReadAll(before)|;
      && k < |was| && was[..k] == ReadAll(before)
      && was[k].version == "Unreleased" && was[k].date == None
      && ReadAll(before + [ReleaseLine("Unreleased", None), ReleaseLine(version, date)] + after)
      == was[..k] + [Release("Unreleased", None, []), Release(version, date, was[k].sections)] + was[k + 1..]
  {
    ReadFromHeading(before, "Unreleased", None, after);
    ReadFromTwoHeadings(before, version, date, after);
    RunRenames(Draft("Unreleased", None, [], None), version, date, after);
    var first := Finish(Feed(Opened("Unreleased", None), after));
    var was := ReadAll(before + [ReleaseLine("Unreleased", None)] + after);
    assert was[|ReadAll(before)| + 1..] == first[1..];
  }

  // ---- what the scanners make of each line -------------------------------------------------------------

  /** A line with its trailing white space is the same line to the parser. */
  lemma TrimmedIsTheSame(line: string)
    ensures Classify(TrimEnd(line)) == Classify(line)
    ensures TrimEnd(line) == "" ==> Classify(line) == OtherLine
  {
    TrimEndTwice(line);
  }

  lemma {:induction false} TrimStartKeeps(s: string, t: string)
    ensures TrimStart(s) != "" ==> TrimStart(s + t) == TrimStart(s) + t
    ensures TrimStart(s) == "" ==> TrimStart(s + t) == TrimStart(t)
  {
    if s == "" {
      assert s + t == t;
    } else {
      assert (s + t)[1..] == s[1..] + t;
      if IsSpace(s[0]) {
        TrimStartKeeps(s[1..], t);
      }
    }
  }

  /** What follows the marker is the same text with the trailing white space on or off. */
  lemma AfterTrimmed(marker: string, line: string)
    requires TextAfter(marker, TrimEnd(line)).Some?
    ensures TextAfter(marker, line).Some?
    ensures var text := TextAfter(marker, TrimEnd(line)).value;
      StartsWith(TextAfter(marker, line).value, text)
  {
    var t := TrimEnd(line);
    TrimEndTwice(line);
    var tail := line[|t|..];
    assert line == t + tail;
    assert line[|marker|..] == t[|marker|..] + tail;
    TrimStartKeeps(t[|marker|..], tail);
  }

  /** Every heading the parser takes for a release ends the section before it. */
  lemma ReleasesAreHeadings(line: string, last: bool)
    requires Classify(line).ReleaseLine?
    ensures IsHeading(line, last)
  {
    var t := TrimEnd(line);
    TrimEndTwice(line);
    assert ReadRelease(t).Some?;
    assert TextAfter("##", t).Some?;
    assert line[2] == t[2];
  }

  lemma DatedReleaseText(line: string)
    requires ReadRelease(line).Some? && ReadRelease(line).value.date.Some?
    ensures TextAfter("##", line).Some? && Reads(TextAfter("##", line).value, ReadRelease(line).value.version)
  {
    var text := TextAfter("##", line).value;
    var s := text[VersionLength(text)..];
    assert DatePart(s).Some? && DatePart(s).value.Some?;
    assert TrimStart(s)[0] == '(';
  }

  lemma ReadsMore(text: string, more: string, version: string)
    requires Reads(text, version)
    ensures Reads(text + more, version)
  {
    assert (text + more)[|version|..] == text[|version|..] + more;
    TrimStartKeeps(text[|version|..], more);
  }

  lemma AnnouncedWhenTrimmed(line: string, version: string)
    requires Announces(TrimEnd(line), version)
    ensures Announces(line, version)
  {
    AfterTrimmed("##", line);
    var short, long := TextAfter("##", TrimEnd(line)).value, TextAfter("##", line).value;
    assert long == short + long[|short|..];
    ReadsMore(short, long[|short|..], version);
  }

  /** A dated release heading counts as an announcement of its version. */
  lemma DatedReleasesAnnounce(line: string)
    requires Classify(line).ReleaseLine? && Classify(line).date.Some?
    ensures Announces(line, Classify(line).version)
  {
    DatedReleaseText(TrimEnd(line));
    AnnouncedWhenTrimmed(line, ReadRelease(TrimEnd(line)).value.version);
  }

  /** The heading a bump counts is an undated `Unreleased` to the parser. */
  lemma UnreleasedIsARelease(line: string)
    requires IsUnreleased(line)
    ensures Classify(line) == ReleaseLine("Unreleased", None)
  {
    var t := TrimEnd(line);
    TrimEndTwice(line);
    UnreleasedText(line);
    var text := TextAfter("##", t).value;
    assert text == "Unreleased";
    assert text[10..] == "" && text[..10] == text;
  }

  lemma UnreleasedText(line: string)
    requires IsUnreleased(line)
    ensures TextAfter("##", TrimEnd(line)) == Some("Unreleased")
  {
    var rest := line[2..];
    TrimStartSplits(rest);
    var spaces := rest[..|rest| - |TrimStart(rest)|];
    assert line == ("##" + spaces) + TrimStart(rest);
    TrimEndOfEnd("##" + spaces, TrimStart(rest));
    AfterSpaces(spaces, "Unreleased");
  }

  lemma AfterSpaces(spaces: string, text: string)
    requires spaces != "" && forall i :: 0 <= i < |spaces| ==> IsSpace(spaces[i])
    requires text != "" && !IsSpace(text[0])
    ensures TextAfter("##", "##" + spaces + text) == Some(text)
  {
    var line := "##" + spaces + text;
    assert line[..2] == "##" && line[2..] == spaces + text;
    TrimStartOfSpaces(spaces, text);
  }

  lemma {:induction false} TrimStartSplits(s: string)
    ensures s != "" && IsSpace(s[0]) ==> |TrimStart(s)| < |s|
    ensures |TrimStart(s)| <= |s| && s == s[..|s| - |TrimStart(s)|] + TrimStart(s)
    ensures forall i :: 0 <= i < |s| - |TrimStart(s)| ==> IsSpace(s[i])
  {
    if s != "" && IsSpace(s[0]) {
      TrimStartSplits(s[1..]);
      assert s == [s[0]] + s[1..];
    }
  }

  lemma {:induction false} TrimStartOfSpaces(spaces: string, s: string)
    requires forall i :: 0 <= i < |spaces| ==> IsSpace(spaces[i])
    requires s != "" && !IsSpace(s[0])
    ensures TrimStart(spaces + s) == s
  {
    if spaces == "" {
      assert spaces + s == s;
    } else {
      assert (spaces + s)[1..] == spaces[1..] + s;
      TrimStartOfSpaces(spaces[1..], s);
    }
  }

  lemma {:induction false} TrimEndOfEnd(a: string, b: string)
    requires TrimEnd(b) != ""
    ensures TrimEnd(a + b) == a + TrimEnd(b)
  {
    if IsSpace(b[|b| - 1]) {
      assert (a + b)[..|a + b| - 1] == a + b[..|b| - 1];
      TrimEndOfEnd(a, b[..|b| - 1]);
    }
  }

  lemma {:induction false} WordsStop(s: string, rest: string)
    requires forall i :: 0 <= i < |s| ==> IsWordOrDot(s[i])
    requires rest != "" && !IsWordOrDot(rest[0])
    ensures Words(s + rest) == s
  {
    if s == "" {
      assert s + rest == rest;
    } else {
      assert (s + rest)[1..] == s[1..] + rest;
      WordsStop(s[1..], rest);
    }
  }

  lemma NumberedLengthOf(t: Triple, suffix: string, rest: string)
    requires t.rest == suffix + rest
    requires suffix == "" || (|suffix| > 1 && suffix[0] == '-')
    requires forall i :: 0 < i < |suffix| ==> IsWordOrDot(suffix[i])
    requires rest != "" && rest[0] == ' '
    ensures NumberedLength(Some(t)) == |t.major| + 1 + |t.minor| + 1 + |t.patch| + |suffix|
  {
    if suffix == "" {
      assert suffix + rest == rest;
    } else {
      assert (suffix + rest)[1..] == suffix[1..] + rest;
      WordsStop(suffix[1..], rest);
    }
  }

  lemma LengthIsNumbered(s: string)
    requires s != "" && s[0] != 'U'
    ensures VersionLength(s) == NumberedLength(TripleField(s))
  {
    assert "Unreleased"[0] == 'U';
  }

  lemma LengthOfNumbers(major: string, minor: string, patch: string, suffix: string, rest: string)
    requires Numeric(major) && Numeric(minor) && Numeric(patch)
    requires suffix == "" || (|suffix| > 1 && suffix[0] == '-')
    requires forall i :: 0 < i < |suffix| ==> IsWordOrDot(suffix[i])
    requires rest != "" && rest[0] == ' '
    ensures VersionLength(major + "." + minor + "." + patch + (suffix + rest))
         == |major| + 1 + |minor| + 1 + |patch| + |suffix|
  {
    var s := major + "." + minor + "." + patch + (suffix + rest);
    assert s[0] == major[0];
    LengthIsNumbered(s);
    TripleFieldOf(major, minor, patch, suffix + rest);
    NumberedLengthOf(Triple(major, minor, patch, suffix + rest), suffix, rest);
  }

  lemma LengthOfShown(v: ParsedVersion, rest: string)
    requires rest != "" && rest[0] == ' '
    ensures VersionLength(Show(v) + rest) == |Show(v)|
  {
    var suffix := if v.prerelease.None? then "" else "-rc." + Numeral(v.prerelease.value);
    assert Show(v) + rest == Core(v) + (suffix + rest);
    LengthOfNumbers(Numeral(v.major), Numeral(v.minor), Numeral(v.patch), suffix, rest);
  }

  lemma VersionLengthOf(version: string, rest: string)
    requires IsReleaseVersion(version)
    requires rest != "" && rest[0] == ' '
    ensures VersionLength(version + rest) == |version|
  {
    var v :| IsRelease(v) && version == Show(v);
    LengthOfShown(v, rest);
  }

  lemma VersionStartsWithDigit(version: string)
    requires IsReleaseVersion(version)
    ensures version != "" && IsDigit(version[0]) && version != "Unreleased"
  {
    var v :| IsRelease(v) && version == Show(v);
    assert version[0] == Numeral(v.major)[0];
  }

  /** What `[^)]+` takes for a date. */
  predicate IsDate(date: string) {
    date != "" && Without(date, ')') && Without(date, '\n')
  }

  lemma DatePartOf(date: string)
    requires IsDate(date)
    ensures DatePart(" (" + date + ")") == Some(Some(Trim(date)))
  {
    var t := "(" + date + ")";
    assert (" (" + date + ")")[1..] == t;
    assert TrimStart(" (" + date + ")") == t;
    assert t == ("(" + date) + [')'] + "";
    SplitOnce("(" + date, ')', "");
    assert t[1..1 + |date|] == date;
  }

  lemma AfterHashes(text: string)
    requires text != "" && !IsSpace(text[0])
    ensures TextAfter("##", "## " + text) == Some(text)
  {
    AfterSpaces(" ", text);
    assert "##" + " " + text == "## " + text;
  }

  lemma HeadingOfParts(version: string, rest: string)
    requires version != "" && DatePart(rest).Some?
    ensures HeadingOf(version + rest, |version|) == Some(ReleaseLine(version, DatePart(rest).value))
  {
    assert (version + rest)[..|version|] == version && (version + rest)[|version|..] == rest;
  }

  lemma ReadFromText(text: string, n: nat)
    requires text != "" && !IsSpace(text[0]) && n <= |text|
    requires VersionLength(text) == n
    ensures ReadRelease("## " + text) == HeadingOf(text, n)
  {
    AfterHashes(text);
  }

  lemma HeadingIsText(version: string, date: string)
    ensures Heading(version, date) == "## " + (version + (" (" + date + ")"))
  {
  }

  lemma ReadHeading(version: string, date: string)
    requires IsReleaseVersion(version) && IsDate(date)
    ensures ReadRelease(Heading(version, date)) == Some(ReleaseLine(version, Some(Trim(date))))
  {
    var rest := " (" + date + ")";
    HeadingIsText(version, date);
    VersionStartsWithDigit(version);
    VersionLengthOf(version, rest);
    assert (version + rest)[0] == version[0];
    ReadFromText(version + rest, |version|);
    DatePartOf(date);
    HeadingOfParts(version, rest);
  }

  /** A line without trailing white space whose heading is read is that heading. */
  lemma ClassifyRead(line: string)
    requires line != "" && !IsSpace(line[|line| - 1]) && ReadRelease(line).Some?
    ensures Classify(line) == ReadRelease(line).value
  {
  }

  /** The heading a bump writes is read back as the version and the date. */
  lemma HeadingReadsBack(version: string, date: string)
    requires IsReleaseVersion(version) && IsDate(date)
    ensures Classify(Heading(version, date)) == ReleaseLine(version, Some(Trim(date)))
  {
    ReadHeading(version, date);
    ClassifyRead(Heading(version, date));
  }
}
