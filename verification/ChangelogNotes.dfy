/**
 The body of the GitHub Release: what `renderReleaseNotes` prints lists the section's entries, no more and no less.
 */
module ChangelogNotes {
  import opened Wrappers
  import opened Text
  import opened Changelog
  import opened ChangelogBump
  import opened ChangelogRepeat
  import opened ChangelogText

  /** What the expression for list entries captures: one line, with no white space around it. */
  predicate IsEntry(e: string) {
    e != "" && OneLine(e) && !IsSpace(e[0]) && !IsSpace(e[|e| - 1])
  }

  // ---- every entry the parser keeps is one ---------------------------------------------------------

  lemma {:induction false} TrimStartIsSuffix(s: string)
    ensures TrimStart(s) != "" ==> !IsSpace(TrimStart(s)[0]) && TrimStart(s)[|TrimStart(s)| - 1] == s[|s| - 1]
  {
    if s != "" && IsSpace(s[0]) {
      TrimStartIsSuffix(s[1..]);
    }
  }

  lemma ReadTextIsEntry(marker: string, line: string)
    requires |marker| == 1 && line != "" && !IsSpace(line[|line| - 1]) && ReadText(marker, line).Some?
    ensures IsEntry(ReadText(marker, line).value)
  {
    TrimStartIsSuffix(line[1..]);
  }

  lemma ClassifiedEntry(line: string)
    requires Classify(line).EntryLine?
    ensures IsEntry(Classify(line).entry)
  {
    var t := TrimEnd(line);
    TrimEndTwice(line);
    if ReadText("-", t).Some? {
      ReadTextIsEntry("-", t);
    } else {
      ReadTextIsEntry("*", t);
    }
  }

  predicate EntriesOf(s: Section) {
    forall e :: e in s.entries ==> IsEntry(e)
  }

  predicate EntriesOfAll(sections: seq<Section>) {
    forall s :: s in sections ==> EntriesOf(s)
  }

  predicate EntriesOfReleases(releases: seq<Release>) {
    forall r :: r in releases ==> EntriesOfAll(r.sections)
  }

  lemma StepKeepsEntries(p: Parser, line: Line)
    requires EntriesOfReleases(Finish(p)) && (line.EntryLine? ==> IsEntry(line.entry))
    ensures EntriesOfReleases(Finish(Step(p, line)))
  {
    if p.current.Some? {
      var c := Closed(p.current.value);
      assert c in Finish(p);
      if !line.ReleaseLine? {
        DraftKeepsEntries(p.current.value, line);
        assert forall r :: r in p.done ==> r in Finish(p);
      }
    }
  }

  lemma DraftKeepsEntries(d: Draft, line: Line)
    requires EntriesOfAll(Closed(d).sections) && (line.EntryLine? ==> IsEntry(line.entry))
    ensures EntriesOfAll(Closed(StepDraft(d, line)).sections)
  {
    if d.open.Some? {
      assert d.open.value in Closed(d).sections;
    }
  }

  lemma {:induction false} ParsedEntries(classify: string -> Line, p: Parser, lines: seq<string>)
    requires EntriesOfReleases(Finish(p))
    requires forall l :: classify(l).EntryLine? ==> IsEntry(classify(l).entry)
    ensures EntriesOfReleases(Finish(Feed(p, Kinds(classify, lines))))
    decreases lines
  {
    if lines != [] {
      StepKeepsEntries(p, classify(lines[0]));
      ParsedEntries(classify, Step(p, classify(lines[0])), lines[1..]);
    }
  }

  /** Whatever the text, every entry of every section of every release is one line of text. */
  lemma ParseKeepsEntries(markdown: string)
    ensures EntriesOfReleases(Parse(markdown))
  {
    forall l | Classify(l).EntryLine? ensures IsEntry(Classify(l).entry) {
      ClassifiedEntry(l);
    }
    ParsedEntries(Classify, Parser([], None), Split(markdown, '\n'));
  }

  // ---- the printed notes read back --------------------------------------------------------------------

  function Dashed(entries: seq<string>): (r: seq<string>)
    ensures |r| == |entries|
  {
    if entries == [] then [] else ["- " + entries[0]] + Dashed(entries[1..])
  }

  lemma {:induction false} BulletsAreDashed(entries: seq<string>)
    requires forall e :: e in entries ==> IsEntry(e)
    ensures Bullets(entries) == Join(Dashed(entries)) && All(IsLine, Dashed(entries))
  {
    if entries != [] {
      assert IsEntry(entries[0]);
      BulletsAreDashed(entries[1..]);
      assert IsLine("- " + entries[0]);
    }
  }

  /** A printed entry is read as that entry. */
  lemma EntryReadsBack(e: string)
    requires IsEntry(e)
    ensures Classify("- " + e) == EntryLine(e)
  {
    var line := "- " + e;
    assert line[0] == '-' && line[1] == ' ' && line[|line| - 1] == e[|e| - 1];
    assert TrimEnd(line) == line;
    OtherMarker("##", line);
    OtherMarker("###", line);
    OtherMarker(":::", line);
    DashReads(e);
  }

  lemma DashReads(e: string)
    requires IsEntry(e)
    ensures ReadText("-", "- " + e) == Some(e)
  {
    var line := "- " + e;
    assert line[..1] == "-" && line[1..] == " " + e && (" " + e)[1..] == e;
    assert TrimStart(e) == e;
  }

  function EntryLines(entries: seq<string>): seq<Line> {
    if entries == [] then [] else [EntryLine(entries[0])] + EntryLines(entries[1..])
  }

  lemma {:induction false} DashedReadBack(classify: string -> Line, entries: seq<string>)
    requires forall e :: e in entries ==> classify("- " + e) == EntryLine(e)
    ensures Kinds(classify, Dashed(entries)) == EntryLines(entries)
  {
    if entries != [] {
      assert entries[0] in entries;
      DashedReadBack(classify, entries[1..]);
    }
  }

  /** Read line by line, the printed notes are the section's entries, in order, and nothing else. */
  lemma NotesReadBack(entries: seq<string>)
    requires entries != [] && forall e :: e in entries ==> IsEntry(e)
    ensures Kinds(Classify, Split(Bullets(entries), '\n')) == EntryLines(entries)
  {
    BulletsAreDashed(entries);
    SplitJoin(Dashed(entries));
    forall e | e in entries ensures Classify("- " + e) == EntryLine(e) {
      EntryReadsBack(e);
    }
    DashedReadBack(Classify, entries);
  }

  /** The notes of a parsed release are the entries of its `Release Highlights`, or failing that of its `Summary`. */
  lemma PublishedNotesAreTheEntries(markdown: string, version: string)
    requires NotesFor(Parse(markdown), version).Ok?
    ensures exists r, s ::
      && r in Parse(markdown) && r.version == StripV(version) && s in r.sections
      && (s.heading == "Release Highlights"
          || (s.heading == "Summary" && forall t :: t in r.sections ==> t.heading != "Release Highlights"))
      && Kinds(Classify, Split(NotesFor(Parse(markdown), version).value, '\n')) == EntryLines(s.entries)
  {
    var r := FindRelease(Parse(markdown), version).value;
    var s := Preferred(r.sections).value;
    ParseKeepsEntries(markdown);
    assert EntriesOfAll(r.sections) && EntriesOf(s);
    NotesReadBack(s.entries);
  }
}
