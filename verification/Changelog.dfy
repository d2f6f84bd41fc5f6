/**
 Reading the changelog: `scripts/changelog-release-notes.ts`.
 */
module Changelog {
  import opened Wrappers
  import opened Text

  datatype Section = Section(heading: string, entries: seq<string>)

  datatype Release = Release(version: string, date: Option<string>, sections: seq<Section>)

  // ---- what a line is ----------------------------------------------------------------------

  datatype Line =
    | ReleaseLine(version: string, date: Option<string>)
    | RuleLine
    | SectionLine(heading: string)
    | DirectiveLine
    | EntryLine(entry: string)
    | OtherLine

  /** What follows `marker\s+` at the start of a line. */
  function TextAfter(marker: string, line: string): (r: Option<string>)
    ensures r.Some? ==> StartsWith(line, marker) && r.value == TrimStart(line[|marker|..])
  {
    if !StartsWith(line, marker) then None else
    var rest := line[|marker|..];
    if rest != "" && IsSpace(rest[0]) then Some(TrimStart(rest)) else None
  }

  /** `[\w.]` */
  predicate IsWordOrDot(c: char) {
    IsDigit(c) || 'a' <= c <= 'z' || 'A' <= c <= 'Z' || c == '_' || c == '.'
  }

  function Words(s: string): (r: string)
    ensures |r| <= |s| && s[..|r|] == r
  {
    if s != "" && IsWordOrDot(s[0]) then [s[0]] + Words(s[1..]) else ""
  }

  /** The length of `\d+\.\d+\.\d+(?:-[\w.]+)?`, from its first three fields and what they leave over. */
  function NumberedLength(core: Option<Triple>): nat {
    if core.None? then 0 else
    var t := core.value;
    var suffix := if t.rest != "" && t.rest[0] == '-' then Words(t.rest[1..]) else "";
    |t.major| + 1 + |t.minor| + 1 + |t.patch| + (if suffix == "" then 0 else 1 + |suffix|)
  }

  /** The length of the version at the start of a heading's text, or zero. */
  function VersionLength(s: string): (n: nat)
    ensures n <= |s|
  {
    if StartsWith(s, "Unreleased") then 10 else NumberedLengthFits(s); NumberedLength(TripleField(s))
  }

  lemma NumberedLengthFits(s: string)
    ensures NumberedLength(TripleField(s)) <= |s|
  {
    if TripleField(s).Some? {
      TripleFieldShape(s);
      var t := TripleField(s).value;
      assert |s| == |t.major| + 1 + |t.minor| + 1 + |t.patch| + |t.rest|;
    }
  }

  /** An optional date in brackets, to the end of the heading; `Some(None)` when there is no date. */
  function DatePart(s: string): Option<Option<string>> {
    var t := TrimStart(s);
    if t == "" then Some(None)
    else if t[0] != '(' then None
    else
      var i := IndexOf(t, ')');
      if i == |t| || i == 1 || TrimStart(t[i + 1..]) != "" then None
      else Some(Some(Trim(t[1..i])))
  }

  /** A heading whose text starts with a version of `n` characters. */
  function HeadingOf(text: string, n: nat): Option<Line>
    requires n <= |text|
  {
    if n == 0 then None else
    var date := DatePart(text[n..]);
    if date.None? then None else Some(ReleaseLine(text[..n], date.value))
  }

  function ReadRelease(line: string): Option<Line> {
    var text := TextAfter("##", line);
    if text.None? then None else HeadingOf(text.value, VersionLength(text.value))
  }

  /** `.` matches no line terminator. */
  predicate OneLine(s: string) {
    forall i :: 0 <= i < |s| ==> s[i] != '\n' && s[i] != '\r' && s[i] as int != 0x2028 && s[i] as int != 0x2029
  }

  predicate IsRule(line: string) {
    var t := TrimEnd(line);
    |t| >= 3 && forall i :: 0 <= i < |t| ==> t[i] == '-'
  }

  function ReadText(marker: string, line: string): Option<string> {
    var text := TextAfter(marker, line);
    if text.Some? && text.value != "" && OneLine(text.value) then text else None
  }

  /** The tests in the order the loop makes them. */
  function Classify(rawLine: string): Line {
    var line := TrimEnd(rawLine);
    var release := ReadRelease(line);
    if release.Some? then release.value
    else if IsRule(line) then RuleLine
    else
      var heading := ReadText("###", line);
      if heading.Some? then SectionLine(heading.value)
      else if StartsWith(line, ":::") then DirectiveLine
      else
        var entry := ReadText("-", line);
        var starred := ReadText("*", line);
        if entry.Some? then EntryLine(entry.value)
        else if starred.Some? then EntryLine(starred.value)
        else OtherLine
  }

  // ---- the line-driven parser -----------------------------------------------------------------

  /** The release being read; `open` is the section that still takes entries. */
  datatype Draft = Draft(version: string, date: Option<string>, sections: seq<Section>, open: Option<Section>)

  datatype Parser = Parser(done: seq<Release>, current: Option<Draft>)

  function Closed(d: Draft): Release {
    Release(d.version, d.date, d.sections + (if d.open.Some? then [d.open.value] else []))
  }

  function Finish(p: Parser): seq<Release> {
    p.done + (if p.current.Some? then [Closed(p.current.value)] else [])
  }

  function StepDraft(d: Draft, line: Line): Draft {
    match line
    case RuleLine => d.(sections := Closed(d).sections, open := None)
    case SectionLine(heading) => d.(sections := Closed(d).sections, open := Some(Section(heading, [])))
    case EntryLine(entry) =>
      if d.open.None? then d else d.(open := Some(d.open.value.(entries := d.open.value.entries + [entry])))
    case _ => d
  }

  function Step(p: Parser, line: Line): Parser {
    if line.ReleaseLine? then Parser(Finish(p), Some(Draft(line.version, line.date, [], None)))
    else if p.current.None? then p
    else p.(current := Some(StepDraft(p.current.value, line)))
  }

  function Feed(p: Parser, lines: seq<Line>): Parser
    decreases lines
  {
    if lines == [] then p else Feed(Step(p, lines[0]), lines[1..])
  }

  /** The lines as `classify` reads them. */
  function Kinds(classify: string -> Line, lines: seq<string>): (r: seq<Line>)
    ensures |r| == |lines|
  {
    if lines == [] then [] else [classify(lines[0])] + Kinds(classify, lines[1..])
  }

  lemma {:induction false} KindsConcat(classify: string -> Line, a: seq<string>, b: seq<string>)
    ensures Kinds(classify, a + b) == Kinds(classify, a) + Kinds(classify, b)
  {
    if a == [] {
      assert a + b == b;
    } else {
      assert (a + b)[1..] == a[1..] + b;
      KindsConcat(classify, a[1..], b);
    }
  }

  lemma {:induction false} KindsAt(classify: string -> Line, lines: seq<string>, i: nat)
    requires i < |lines|
    ensures Kinds(classify, lines)[i] == classify(lines[i])
  {
    if i > 0 {
      KindsAt(classify, lines[1..], i - 1);
    }
  }

  function ReadAll(lines: seq<Line>): seq<Release> {
    Finish(Feed(Parser([], None), lines))
  }

  function ParseLines(lines: seq<string>): seq<Release> {
    ReadAll(Kinds(Classify, lines))
  }

  function Parse(markdown: string): seq<Release> {
    ParseLines(Split(markdown, '\n'))
  }

  lemma {:induction false} RunConcat(p: Parser, a: seq<Line>, b: seq<Line>)
    ensures Feed(p, a + b) == Feed(Feed(p, a), b)
    decreases a
  {
    if a == [] {
      assert a + b == b;
    } else {
      assert (a + b)[1..] == a[1..] + b;
      RunConcat(Step(p, a[0]), a[1..], b);
    }
  }

  lemma StepFrame(done: seq<Release>, current: Option<Draft>, line: Line)
    ensures var q := Step(Parser([], current), line);
      Step(Parser(done, current), line) == Parser(done + q.done, q.current)
  {
  }

  /** Finished releases are never looked at again. */
  lemma {:induction false} RunFrame(done: seq<Release>, current: Option<Draft>, lines: seq<Line>)
    ensures Finish(Feed(Parser(done, current), lines)) == done + Finish(Feed(Parser([], current), lines))
    decreases lines
  {
    if lines != [] {
      var q := Step(Parser([], current), lines[0]);
      StepFrame(done, current, lines[0]);
      RunFrame(done + q.done, q.current, lines[1..]);
      RunFrame(q.done, q.current, lines[1..]);
      var rest := Finish(Feed(Parser([], q.current), lines[1..]));
      assert (done + q.done) + rest == done + (q.done + rest);
    }
  }

  /** The name of the release being read decides nothing but its own name. */
  lemma {:induction false} RunRenames(d: Draft, version: string, date: Option<string>, lines: seq<Line>)
    ensures var was := Finish(Feed(Parser([], Some(d)), lines));
      && was != [] && was[0].version == d.version && was[0].date == d.date
      && Finish(Feed(Parser([], Some(d.(version := version, date := date))), lines))
      == [was[0].(version := version, date := date)] + was[1..]
    decreases lines
  {
    var e := d.(version := version, date := date);
    if lines != [] {
      var line := lines[0];
      if line.ReleaseLine? {
        var next := Some(Draft(line.version, line.date, [], None));
        assert Step(Parser([], Some(d)), line) == Parser([Closed(d)], next);
        assert Step(Parser([], Some(e)), line) == Parser([Closed(e)], next);
        RunFrame([Closed(d)], next, lines[1..]);
        RunFrame([Closed(e)], next, lines[1..]);
      } else {
        RunRenames(StepDraft(d, line), version, date, lines[1..]);
      }
    }
  }

  // ---- the loop ---------------------------------------------------------------------------------

  /** `currentSection.entries.push(entry)`, the current section being the last one of the last release. */
  function PushEntry(releases: seq<Release>, entry: string): seq<Release>
    requires releases != [] && releases[|releases| - 1].sections != []
  {
    var r := releases[|releases| - 1];
    var s := r.sections[|r.sections| - 1];
    releases[|releases| - 1 := r.(sections := r.sections[|r.sections| - 1 := s.(entries := s.entries + [entry])])]
  }

  function PushSection(releases: seq<Release>, heading: string): seq<Release>
    requires releases != []
  {
    var r := releases[|releases| - 1];
    releases[|releases| - 1 := r.(sections := r.sections + [Section(heading, [])])]
  }

  predicate Shows(p: Parser, releases: seq<Release>, inRelease: bool, inSection: bool) {
    && Finish(p) == releases
    && inRelease == p.current.Some?
    && inSection == (p.current.Some? && p.current.value.open.Some?)
  }

  lemma PushesAreSteps(p: Parser, releases: seq<Release>, inSection: bool, text: string)
    requires Shows(p, releases, true, inSection)
    ensures Shows(Step(p, SectionLine(text)), PushSection(releases, text), true, true)
    ensures Shows(Step(p, RuleLine), releases, true, false)
    ensures inSection ==> releases[|releases| - 1].sections != []
    ensures inSection ==> Shows(Step(p, EntryLine(text)), PushEntry(releases, text), true, true)
  {
    var d := p.current.value;
    assert Closed(StepDraft(d, RuleLine)) == Closed(d);
    assert releases[|releases| - 1] == Closed(d);
    assert releases[..|releases| - 1] == p.done;
    if inSection {
      var e := StepDraft(d, EntryLine(text));
      assert PushEntry(releases, text)[|releases| - 1].sections == Closed(e).sections;
    }
  }

  method ReadLines(classify: string -> Line, lines: seq<string>) returns (releases: seq<Release>)
    ensures releases == ReadAll(Kinds(classify, lines))
  {
    releases := [];
    var inRelease, inSection := false, false;
    ghost var kinds := Kinds(classify, lines);
    ghost var p := Parser([], None);
    for i := 0 to |lines|
      invariant Shows(p, releases, inRelease, inSection)
      invariant Feed(p, kinds[i..]) == Feed(Parser([], None), kinds)
    {
      var line := classify(lines[i]);
      KindsAt(classify, lines, i);
      assert kinds[i..][1..] == kinds[i + 1..];
      if line.ReleaseLine? {
        assert Closed(Draft(line.version, line.date, [], None)) == Release(line.version, line.date, []);
        releases := releases + [Release(line.version, line.date, [])];
        inRelease, inSection := true, false;
      } else if inRelease {
        if line.RuleLine? {
          PushesAreSteps(p, releases, inSection, "");
          inSection := false;
        } else if line.SectionLine? {
          PushesAreSteps(p, releases, inSection, line.heading);
          releases, inSection := PushSection(releases, line.heading), true;
        } else if line.EntryLine? && inSection {
          PushesAreSteps(p, releases, inSection, line.entry);
          releases := PushEntry(releases, line.entry);
        }
      }
      p := Step(p, line);
    }
    assert kinds[|lines|..] == [];
  }

  method ParseChangelog(markdown: string) returns (releases: seq<Release>)
    ensures releases == Parse(markdown)
  {
    releases := ReadLines(Classify, Split(markdown, '\n'));
  }

  // ---- the notes ----------------------------------------------------------------------------------

  function FindFirst(releases: seq<Release>, version: string): (r: Option<Release>)
    ensures r.Some? ==> r.value in releases && r.value.version == version
    ensures r.None? ==> forall x :: x in releases ==> x.version != version
  {
    if releases == [] then None
    else if releases[0].version == version then Some(releases[0])
    else FindFirst(releases[1..], version)
  }

  function FindRelease(releases: seq<Release>, version: string): Result<Release> {
    var r := FindFirst(releases, StripV(version));
    if r.None? then Err("no changelog section for this version") else Ok(r.value)
  }

  lemma {:induction false} FindFirstAfter(before: seq<Release>, r: Release, rest: seq<Release>)
    requires forall x :: x in before ==> x.version != r.version
    ensures FindFirst(before + [r] + rest, r.version) == Some(r)
  {
    if before != [] {
      assert (before + [r] + rest)[1..] == before[1..] + [r] + rest;
      assert before[0] in before;
      FindFirstAfter(before[1..], r, rest);
    }
  }

  function FindSection(sections: seq<Section>, heading: string): (r: Option<Section>)
    ensures r.Some? ==> r.value in sections && r.value.heading == heading
    ensures r.None? ==> forall x :: x in sections ==> x.heading != heading
  {
    if sections == [] then None
    else if sections[0].heading == heading then Some(sections[0])
    else FindSection(sections[1..], heading)
  }

  function Preferred(sections: seq<Section>): Option<Section> {
    var highlights := FindSection(sections, "Release Highlights");
    if highlights.Some? then highlights else FindSection(sections, "Summary")
  }

  function Bullets(entries: seq<string>): string {
    if entries == [] then ""
    else if |entries| == 1 then "- " + entries[0]
    else "- " + entries[0] + "\n" + Bullets(entries[1..])
  }

  function RenderReleaseNotes(release: Release): Result<string> {
    var section := Preferred(release.sections);
    if section.None? || section.value.entries == [] then Err("release notes would be empty")
    else Ok(Bullets(section.value.entries))
  }

  function NotesFor(releases: seq<Release>, version: string): Result<string> {
    var r := FindRelease(releases, version);
    if r.Err? then Err(r.error) else RenderReleaseNotes(r.value)
  }
}
