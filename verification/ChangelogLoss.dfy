/**
 A bump that loses an entry: a note that the parser does read.
 */
module ChangelogLoss {
  import opened Wrappers
  import opened Text
  import opened Versions
  import opened Changelog
  import opened ChangelogBump
  import opened ChangelogRelease
  import opened ChangelogContract
  import opened ChangelogRepeat
  import opened ChangelogText

  lemma DashIsEntry(text: string)
    requires text != "" && OneLine(text) && !IsSpace(text[0]) && !IsSpace(text[|text| - 1])
    ensures Classify("- " + text) == EntryLine(text) && !IsHeading("- " + text, false)
  {
    var line := "- " + text;
    assert line[1..] == " " + text && (" " + text)[1..] == text;
    assert TrimStart(" " + text) == TrimStart(text) == text;
    assert TextAfter("-", line) == Some(text);
    assert line[|line| - 1] == text[|text| - 1] && TrimEnd(line) == line;
    OtherMarker("##", line);
    OtherMarker("###", line);
    OtherMarker(":::", line);
  }

  lemma LoneDashIsOther()
    ensures Classify("- ") == OtherLine
  {
    assert "- "[..1] == "-" && TrimEnd("-") == "-" && TrimEnd("- ") == "-";
    OtherMarker("##", "-");
    OtherMarker("###", "-");
    OtherMarker(":::", "-");
    OtherMarker("*", "-");
    assert "-"[1..] == "";
  }

  lemma HashesAreSection(text: string)
    requires text != "" && OneLine(text) && !IsSpace(text[0]) && !IsSpace(text[|text| - 1])
    ensures Classify("### " + text) == SectionLine(text)
    ensures !IsHeading("### " + text, false) && TrimEnd("### " + text) != ""
  {
    var line := "### " + text;
    assert line[3..] == " " + text && (" " + text)[1..] == text;
    assert line[|line| - 1] == text[|text| - 1] && TrimEnd(line) == line;
    assert TrimStart(" " + text) == TrimStart(text) == text;
    assert TextAfter("###", line) == Some(text);
    assert line[2..][0] == '#' && TextAfter("##", line) == None;
  }

  lemma SummaryIsSection()
    ensures Classify("### Summary") == SectionLine("Summary")
    ensures !IsHeading("### Summary", false) && TrimEnd("### Summary") != ""
  {
    HashesAreSection("Summary");
    assert "### " + "Summary" == "### Summary";
  }

  /** One entry more behind an open section. */
  lemma EntryAdds(version: string, date: Option<string>, heading: string, entries: seq<string>, entry: string)
    ensures Feed(Parser([], Some(Draft(version, date, [], Some(Section(heading, entries))))), [EntryLine(entry)])
         == Parser([], Some(Draft(version, date, [], Some(Section(heading, entries + [entry])))))
  {
    assert [EntryLine(entry)][1..] == [];
  }

  lemma SectionOpens(version: string, date: Option<string>, heading: string)
    ensures Feed(Opened(version, date), [SectionLine(heading)])
         == Parser([], Some(Draft(version, date, [], Some(Section(heading, [])))))
  {
    var d := Draft(version, date, [], None);
    assert Closed(d).sections == [] && [SectionLine(heading)][1..] == [];
    assert StepDraft(d, SectionLine(heading)) == Draft(version, date, [], Some(Section(heading, [])));
  }

  lemma OnlyRelease(version: string, date: Option<string>, section: Section)
    ensures Finish(Parser([], Some(Draft(version, date, [], Some(section))))) == [Release(version, date, [section])]
  {
    assert Closed(Draft(version, date, [], Some(section))).sections == [section];
  }

  lemma ReadEntries(version: string, date: Option<string>, heading: string, a: string, b: string)
    ensures Finish(Feed(Opened(version, date), [SectionLine(heading)] + [EntryLine(a)]))
         == [Release(version, date, [Section(heading, [a])])]
    ensures Finish(Feed(Opened(version, date), [SectionLine(heading)] + [EntryLine(a)] + [EntryLine(b)]))
         == [Release(version, date, [Section(heading, [a, b])])]
  {
    RunConcat(Opened(version, date), [SectionLine(heading)], [EntryLine(a)]);
    RunConcat(Opened(version, date), [SectionLine(heading)] + [EntryLine(a)], [EntryLine(b)]);
    SectionOpens(version, date, heading);
    EntryAdds(version, date, heading, [], a);
    EntryAdds(version, date, heading, [a], b);
    assert [] + [a] == [a] && [a] + [b] == [a, b];
    OnlyRelease(version, date, Section(heading, [a]));
    OnlyRelease(version, date, Section(heading, [a, b]));
  }

  lemma NoteIsLater(note: string, line: string, rest: seq<string>)
    requires Find(line, note) == |line|
    ensures DropNote(note, [line] + rest) == [line] + DropNote(note, rest)
  {
    assert ([line] + rest)[1..] == rest;
  }

  lemma NoteIsHere(note: string, before: string)
    requires Find(before + note, note) == |before| && note != ""
    ensures DropNote(note, [before + note]) == [before]
  {
    assert [before + note][1..] == [];
    assert (before + note)[..|before|] == before && (before + note)[|before| + |note|..] == "" && before + "" == before;
    assert RemoveFirst(before + note, note) == before;
  }

  /** A body whose last entry is the note, and the same without it. */
  lemma BareEntries(note: string)
    requires note != "" && Find("### Summary", note) == |"### Summary"| && Find("- a", note) == |"- a"|
    requires Find("- " + note, note) == 2
    ensures Bare(note, ["### Summary", "- a", "- " + note]) == ["### Summary", "- a", "- "]
  {
    SummaryIsSection();
    NoteIsHere(note, "- ");
    NoteIsLater(note, "- a", ["- " + note]);
    NoteIsLater(note, "### Summary", ["- a"] + ["- " + note]);
    assert ["### Summary", "- a", "- " + note] == ["### Summary"] + (["- a"] + ["- " + note]);
    assert ["### Summary", "- a", "- "] == ["### Summary"] + (["- a"] + ["- "]);
  }

  lemma NotFound(s: string, t: string)
    requires t != "" && Without(s, t[0])
    ensures Find(s, t) == |s|
  {
    FindNone(s, t);
  }

  lemma FoundBehind(before: string, note: string)
    requires note != "" && Without(before, note[0])
    ensures Find(before + note, note) == |before|
  {
    var s := before + note;
    assert s[|before|..] == note;
    forall i | 0 <= i < |before| ensures !StartsWith(s[i..], note) {
      assert s[i..][0] == before[i];
    }
  }

  /** `## Unreleased` over a summary with one entry, and more. */
  function Entered(more: string): seq<string> {
    [] + ["## Unreleased"] + (["### Summary", "- a", more] + [])
  }

  lemma EnteredPieces(more: string)
    requires !IsHeading(more, false)
    ensures CountUnreleased(Entered(more)) == 1 && FirstUnreleased(Entered(more)) == 0
    ensures BodyOf(Entered(more)) == ["### Summary", "- a", more] && TailOf(Entered(more)) == []
  {
    var lines, body := Entered(more), ["### Summary", "- a", more];
    FreshHeadingIsUnreleased();
    SummaryIsSection();
    DashIsEntry("a");
    assert !IsHeading(more, true) && NextHeading(body) == 3;
    assert lines[1..] == body;
    forall l | l in body ensures !IsUnreleased(l) {
      if IsUnreleased(l) {
        UnreleasedIsHeading(l);
      }
    }
    CountNone(body);
  }

  lemma OneHeadingReads(heading: string, body: seq<string>)
    requires IsUnreleased(heading)
    ensures ParseLines([] + [heading] + (body + []))
         == ParseLines([]) + Finish(Feed(Opened("Unreleased", None), Meaning(Classify, body)))
  {
    WholeFileReads([], heading, body, []);
    assert Meaning(Classify, []) == [] && Meaning(Classify, body) + [] == Meaning(Classify, body);
  }

  lemma EnteredReads(more: string)
    ensures ParseLines(Entered(more))
         == ParseLines([]) + Finish(Feed(Opened("Unreleased", None), [SectionLine("Summary")] + [EntryLine("a")] + Meaning(Classify, [more])))
  {
    FreshHeadingIsUnreleased();
    OneHeadingReads("## Unreleased", ["### Summary", "- a", more]);
    EntriesMean(more);
  }

  lemma LinesMean(section: string, first: string, more: string, heading: string, entry: string)
    requires Classify(section) == SectionLine(heading) && Classify(first) == EntryLine(entry)
    ensures Meaning(Classify, [section, first, more]) == [SectionLine(heading)] + [EntryLine(entry)] + Meaning(Classify, [more])
  {
    MeaningOfThree(Classify, section, first, more);
    MeaningOf(Classify, section);
    MeaningOf(Classify, first);
  }

  lemma EntriesMean(more: string)
    ensures Meaning(Classify, ["### Summary", "- a", more]) == [SectionLine("Summary")] + [EntryLine("a")] + Meaning(Classify, [more])
  {
    SummaryIsSection();
    DashIsEntry("a");
    assert "- " + "a" == "- a";
    LinesMean("### Summary", "- a", more, "Summary", "a");
  }

  /** A quote as an entry is a second entry; a lone dash is none. */
  lemma NoteIsASecondEntry(note: string)
    requires IsQuote(note)
    ensures ParseLines(Entered("- " + note)) != ParseLines(Entered("- "))
  {
    DashIsEntry(note);
    LoneDashIsOther();
    MeaningOf(Classify, "- " + note);
    MeaningOf(Classify, "- ");
    EnteredReads("- " + note);
    EnteredReads("- ");
    ReadEntries("Unreleased", None, "Summary", "a", note);
    assert [SectionLine("Summary")] + [EntryLine("a")] + [] == [SectionLine("Summary")] + [EntryLine("a")];
    var one, two := [Release("Unreleased", None, [Section("Summary", ["a"])])], [Release("Unreleased", None, [Section("Summary", ["a", note])])];
    assert (ParseLines([]) + one)[|ParseLines([])|] != (ParseLines([]) + two)[|ParseLines([])|];
  }

  predicate IsQuote(note: string) {
    |note| > 1 && note[0] == '>' && note[|note| - 1] == '.' && OneLine(note)
  }

  lemma HeadingAnnouncesNothing(version: string)
    requires IsReleaseVersion(version)
    ensures !Announces("## Unreleased", version)
  {
    VersionStartsWithDigit(version);
    AfterHashes("Unreleased");
    assert "## " + "Unreleased" == "## Unreleased";
  }

  lemma OtherAnnouncesNothing(line: string, version: string)
    requires !IsHeading(line, false)
    ensures !Announces(line, version)
  {
  }

  lemma EnteredAnnouncesNothing(more: string, version: string)
    requires !IsHeading(more, false) && IsReleaseVersion(version)
    ensures !AnyAnnounces(Entered(more), version)
  {
    SummaryIsSection();
    DashIsEntry("a");
    assert "- " + "a" == "- a";
    NoneAnnounces("## Unreleased", "### Summary", "- a", more, version);
  }

  lemma NoneAnnounces(heading: string, section: string, first: string, more: string, version: string)
    requires heading == "## Unreleased" && IsReleaseVersion(version)
    requires !IsHeading(section, false) && !IsHeading(first, false) && !IsHeading(more, false)
    ensures !AnyAnnounces([] + [heading] + ([section, first, more] + []), version)
  {
    HeadingAnnouncesNothing(version);
    OtherAnnouncesNothing(section, version);
    OtherAnnouncesNothing(first, version);
    OtherAnnouncesNothing(more, version);
  }

  lemma OneEntryRenders(version: string, date: Option<string>)
    requires IsReleaseVersion(version)
    ensures NotesFor([Release(version, date, [Section("Summary", ["a"])])], version).Ok?
  {
    VersionStartsWithDigit(version);
    var r := Release(version, date, [Section("Summary", ["a"])]);
    FindFirstAfter([], r, []);
    assert [] + [r] + [] == [r];
    assert [Section("Summary", ["a"])][1..] == [];
  }

  lemma OneEntryIsReleased(note: string, version: string, date: string)
    requires IsReleaseVersion(version) && IsDate(date)
    requires Bare(note, ["### Summary", "- a", "- " + note]) == ["### Summary", "- a", "- "]
    ensures NotesFor(ParseLines(ReleasedSection(version, date, ReleasedBody(note, ["### Summary", "- a", "- " + note]))), version).Ok?
  {
    HeadingReadsBack(version, date);
    ReleasedReads(note, ["### Summary", "- a", "- " + note], version, date);
    EntriesMean("- ");
    LoneDashIsOther();
    MeaningOf(Classify, "- ");
    assert [SectionLine("Summary")] + [EntryLine("a")] + [] == [SectionLine("Summary")] + [EntryLine("a")];
    ReadEntries(version, Some(Trim(date)), "Summary", "a", "");
    OneEntryRenders(version, Some(Trim(date)));
  }

  lemma OneLineConcat(a: string, b: string)
    requires OneLine(a) && OneLine(b)
    ensures OneLine(a + b)
  {
  }

  lemma NoteIsOneLine()
    ensures OneLine(UnreleasedNote())
  {
    var a, b, c, d := "> Changes merged since ", "the last versioned release ", "that have not yet shipped ", "in a tagged version.";
    OneLineConcat(a, b);
    OneLineConcat(a + b, c);
    OneLineConcat(a + b + c, d);
  }

  lemma QuoteEnds(middle: string)
    requires OneLine(">" + middle + ".")
    ensures IsQuote(">" + middle + ".")
  {
  }

  lemma NoteIsAQuote()
    ensures IsQuote(UnreleasedNote())
  {
    NoteIsOneLine();
    NoteIsQuote();
    var middle :| UnreleasedNote() == ">" + middle + "." && IsLine(middle);
    QuoteEnds(middle);
  }

  lemma EnteredBare(note: string)
    requires IsQuote(note)
    ensures Bare(note, ["### Summary", "- a", "- " + note]) == ["### Summary", "- a", "- "]
  {
    NotFound("### Summary", note);
    NotFound("- a", note);
    FoundBehind("- ", note);
    BareEntries(note);
  }

  lemma EnteredWithoutNote(note: string)
    requires IsQuote(note)
    ensures CountUnreleased(Entered("- " + note)) == 1 && WithoutNote(note, Entered("- " + note)) == Entered("- ")
  {
    DashIsEntry(note);
    EnteredPieces("- " + note);
    EnteredBare(note);
  }

  lemma EnteredIsBumped(note: string, version: string, date: string)
    requires IsQuote(note) && IsReleaseVersion(version) && IsDate(date)
    ensures BumpLines(note, Entered("- " + note), version, date).Ok?
  {
    DashIsEntry(note);
    EnteredPieces("- " + note);
    EnteredAnnouncesNothing("- " + note, version);
    EnteredBare(note);
    OneEntryIsReleased(note, version, date);
  }

  /** A bump that is accepted and loses an entry: one that is the note's own text. */
  lemma EntryIsLost(version: string, date: string)
    requires IsReleaseVersion(version) && IsDate(date)
    ensures var note := UnreleasedNote();
      var lines := Entered("- " + note);
      && BumpLines(note, lines, version, date).Ok?
      && !Moves(ParseLines(lines), ParseLines(BumpLines(note, lines, version, date).value.lines),
                |ParseLines(lines[..FirstUnreleased(lines)])|, version, Trim(date))
  {
    var note := UnreleasedNote();
    NoteIsAQuote();
    NoteSaysNothing();
    EnteredIsBumped(note, version, date);
    EnteredWithoutNote(note);
    NoteIsASecondEntry(note);
    BumpMovesUnreleased(note, Entered("- " + note), version, date);
  }
}
