/**
 The bump on the text of CHANGELOG.md.
 */
module ChangelogText {
  import opened Wrappers
  import opened Text
  import opened Versions
  import opened Changelog
  import opened ChangelogBump
  import opened ChangelogRelease
  import opened ChangelogContract
  import opened ChangelogRepeat
  import opened ChangelogEffect

  function Join(lines: seq<string>): string {
    if lines == [] then ""
    else if |lines| == 1 then lines[0]
    else lines[0] + ['\n'] + Join(lines[1..])
  }

  lemma {:induction false} SplitJoin(lines: seq<string>)
    requires lines != [] && All(IsLine, lines)
    ensures Split(Join(lines), '\n') == lines
  {
    var first := lines[0];
    assert IsLine(first);
    if |lines| > 1 {
      var rest := Join(lines[1..]);
      SplitJoin(lines[1..]);
      SplitOnce(first, '\n', rest);
      assert Join(lines) == first + ['\n'] + rest;
      assert lines == [first] + lines[1..];
    } else {
      SplitOnce(first, '\n', "");
      assert lines == [first];
    }
  }

  lemma {:induction false} SplitGivesLines(text: string)
    ensures All(IsLine, Split(text, '\n'))
    decreases |text|
  {
    var i := IndexOf(text, '\n');
    if i < |text| {
      SplitGivesLines(text[i + 1..]);
    }
  }

  /** Splitting and joining again loses nothing. */
  lemma {:induction false} JoinSplit(text: string)
    ensures Join(Split(text, '\n')) == text
    decreases |text|
  {
    var i := IndexOf(text, '\n');
    if i < |text| {
      JoinSplit(text[i + 1..]);
      assert Split(text, '\n')[1..] == Split(text[i + 1..], '\n');
      assert text == text[..i] + ['\n'] + text[i + 1..];
    }
  }

  datatype TextBump = TextBump(contents: string, releasedSection: string)

  function UnreleasedNote(): string {
    "> Changes merged since " + "the last versioned release " + "that have not yet shipped " + "in a tagged version."
  }

  function BumpText(note: string, contents: string, version: string, date: string): (r: Result<TextBump>)
    ensures r.Ok? ==> CountUnreleased(Split(contents, '\n')) == 1
  {
    var b := BumpLines(note, Split(contents, '\n'), version, date);
    if b.Err? then Err(b.error) else Ok(TextBump(Join(b.value.lines), Join(b.value.released)))
  }

  function BumpChangelog(contents: string, version: string, date: string): (r: Result<TextBump>)
    ensures r.Ok? ==> CountUnreleased(Split(contents, '\n')) == 1
  {
    BumpText(UnreleasedNote(), contents, version, date)
  }

  // ---- the lines of the bump are lines -------------------------------------------------------------

  lemma HeadingIsLine(version: string, date: string)
    requires IsLine(version) && IsDate(date)
    ensures IsLine(Heading(version, date))
  {
    assert Heading(version, date) == "## " + version + " (" + date + ")";
  }

  lemma LinesConcat(a: string, b: string)
    requires IsLine(a) && IsLine(b)
    ensures IsLine(a + b)
  {
  }

  lemma NumeralIsLine(n: nat)
    ensures IsLine(Numeral(n)) && IsLine(".") && IsLine("-rc.")
  {
  }

  lemma ShownIsLine(v: ParsedVersion)
    ensures IsLine(Show(v))
  {
    NumeralIsLine(v.major);
    NumeralIsLine(v.minor);
    NumeralIsLine(v.patch);
    LinesConcat(Numeral(v.major), ".");
    LinesConcat(Numeral(v.major) + ".", Numeral(v.minor));
    LinesConcat(Numeral(v.major) + "." + Numeral(v.minor), ".");
    LinesConcat(Numeral(v.major) + "." + Numeral(v.minor) + ".", Numeral(v.patch));
    if v.prerelease.Some? {
      NumeralIsLine(v.prerelease.value);
      LinesConcat("-rc.", Numeral(v.prerelease.value));
      LinesConcat(Core(v), "-rc." + Numeral(v.prerelease.value));
    } else {
      assert Show(v) == Core(v);
    }
  }

  lemma VersionIsLine(version: string)
    requires IsReleaseVersion(version)
    ensures IsLine(version)
  {
    var v :| IsRelease(v) && version == Show(v);
    ShownIsLine(v);
  }

  lemma ReleasedBodyIsLines(note: string, body: seq<string>)
    requires All(IsLine, body)
    ensures All(IsLine, ReleasedBody(note, body))
  {
    forall l | IsLine(l) ensures IsLine(TrimEnd(l)) && IsLine(RemoveFirst(l, note)) {
      TrimEndTwice(l);
      assert forall i :: 0 <= i < |TrimEnd(l)| ==> TrimEnd(l)[i] == l[i];
    }
    ReleasedBodyKeeps(IsLine, note, body);
  }

  lemma BumpGivesLines(note: string, lines: seq<string>, version: string, date: string)
    requires BumpLines(note, lines, version, date).Ok?
    requires IsReleaseVersion(version) && IsDate(date) && IsLine(note) && All(IsLine, lines)
    ensures All(IsLine, BumpLines(note, lines, version, date).value.lines)
    ensures All(IsLine, BumpLines(note, lines, version, date).value.released)
    ensures BumpLines(note, lines, version, date).value.released != []
    ensures BumpLines(note, lines, version, date).value.lines != []
  {
    BumpIsRewrite(note, lines, version, date);
    VersionIsLine(version);
    HeadingIsLine(version, date);
    LinesInPieces(lines);
    PiecesAreLines(lines);
    ReleasedBodyIsLines(note, BodyOf(lines));
    ReleasedIsLines(version, date, ReleasedBody(note, BodyOf(lines)));
    RewrittenIsLines(note, lines[..FirstUnreleased(lines)],
                     ReleasedSection(version, date, ReleasedBody(note, BodyOf(lines))), TailOf(lines));
  }

  lemma PiecesAreLines(lines: seq<string>)
    requires CountUnreleased(lines) > 0 && All(IsLine, lines)
    ensures All(IsLine, lines[..FirstUnreleased(lines)])
    ensures All(IsLine, BodyOf(lines)) && All(IsLine, TailOf(lines))
  {
    var rest := lines[FirstUnreleased(lines) + 1..];
    assert forall l :: l in rest ==> l in lines;
  }

  lemma ReleasedIsLines(version: string, date: string, body: seq<string>)
    requires IsLine(Heading(version, date)) && All(IsLine, body)
    ensures All(IsLine, ReleasedSection(version, date, body))
  {
    assert IsLine("");
  }

  lemma RewrittenIsLines(note: string, before: seq<string>, released: seq<string>, tail: seq<string>)
    requires All(IsLine, before) && All(IsLine, released) && All(IsLine, tail) && IsLine(note)
    ensures All(IsLine, Rewritten(note, before, released, tail)) && Rewritten(note, before, released, tail) != []
  {
    assert IsLine("") && IsLine("## Unreleased");
  }

  // ---- the main result on the text --------------------------------------------------------------------

  lemma OtherMarker(marker: string, line: string)
    requires marker != "" && line != "" && marker[0] != line[0]
    ensures !StartsWith(line, marker) && TextAfter(marker, line).None?
  {
  }

  /** A block quote that ends in a full stop: neither a heading nor an entry. */
  lemma QuoteSaysNothing(note: string)
    requires |note| > 1 && note[0] == '>' && note[|note| - 1] == '.'
    ensures Classify(note) == OtherLine && !IsHeading(note, false) && TrimEnd(note) != ""
  {
    assert TrimEnd(note) == note;
    OtherMarker("##", note);
    OtherMarker("###", note);
    OtherMarker(":::", note);
    OtherMarker("-", note);
    OtherMarker("*", note);
  }

  lemma NoteIsQuote()
    ensures exists middle :: UnreleasedNote() == ">" + middle + "." && IsLine(middle)
  {
    var a, b, c, d := " Changes merged since ", "the last versioned release ", "that have not yet shipped ", "in a tagged version";
    assert "> Changes merged since " == ">" + a && "in a tagged version." == d + ".";
    LinesConcat(a, b);
    LinesConcat(a + b, c);
    LinesConcat(a + b + c, d);
    JoinQuote(">", a, b, c, d, ".");
  }

  lemma JoinQuote(open: string, a: string, b: string, c: string, d: string, stop: string)
    ensures (open + a) + b + c + (d + stop) == open + (a + b + c + d) + stop
  {
  }

  lemma NoteSaysNothing()
    ensures var note := UnreleasedNote();
      IsLine(note) && Classify(note) == OtherLine && !IsHeading(note, false) && TrimEnd(note) != ""
  {
    NoteIsQuote();
    var middle :| UnreleasedNote() == ">" + middle + "." && IsLine(middle);
    QuoteSaysNothing(UnreleasedNote());
    LinesConcat(">", middle);
    LinesConcat(">" + middle, ".");
  }

  /**
   `bumpChangelog` moves what the text without its note holds as unreleased to the new version and
   touches nothing else; so it does with the text as it stood exactly when the one line that loses
   the note does the same without it.
   */
  lemma BumpedTextReads(contents: string, version: string, date: string)
    requires BumpChangelog(contents, version, date).Ok?
    requires IsReleaseVersion(version) && IsDate(date)
    ensures var lines := Split(contents, '\n');
      var k := |ParseLines(lines[..FirstUnreleased(lines)])|;
      var bare, now := ParseLines(WithoutNote(UnreleasedNote(), lines)), Parse(BumpChangelog(contents, version, date).value.contents);
      && Moves(bare, now, k, version, Trim(date))
      && (Moves(Parse(contents), now, k, version, Trim(date))
          <==> NoteIsUnread(UnreleasedNote(), DropBlank(BodyOf(lines)), TailOf(lines)))
  {
    var note, lines := UnreleasedNote(), Split(contents, '\n');
    NoteSaysNothing();
    SplitGivesLines(contents);
    BumpMovesUnreleased(note, lines, version, date);
    BumpMovesExactly(note, lines, version, date);
    BumpGivesLines(note, lines, version, date);
    SplitJoin(BumpLines(note, lines, version, date).value.lines);
  }

  /** The notes published from the bumped file are the notes the bump rendered. */
  lemma BumpedTextNotes(contents: string, version: string, date: string)
    requires BumpChangelog(contents, version, date).Ok?
    requires IsReleaseVersion(version) && IsDate(date)
    requires HeadingContract(Classify, Split(contents, '\n'))
    ensures var b := BumpChangelog(contents, version, date).value;
      && NotesFor(Parse(b.contents), version).Ok?
      && NotesFor(Parse(b.contents), version) == NotesFor(Parse(b.releasedSection), version)
  {
    var note, lines := UnreleasedNote(), Split(contents, '\n');
    NoteSaysNothing();
    SplitGivesLines(contents);
    NotesAgree(note, lines, version, date);
    BumpGivesLines(note, lines, version, date);
    SplitJoin(BumpLines(note, lines, version, date).value.lines);
    SplitJoin(BumpLines(note, lines, version, date).value.released);
  }

  /** Bump after bump: the contract is kept, and the file just bumped cannot be bumped again. */
  lemma BumpedTextIsReady(contents: string, version: string, date: string, next: string, day: string)
    requires BumpChangelog(contents, version, date).Ok?
    requires IsReleaseVersion(version) && IsDate(date)
    requires IsReady(UnreleasedNote(), Split(contents, '\n'))
    ensures IsReady(UnreleasedNote(), Split(BumpChangelog(contents, version, date).value.contents, '\n'))
    ensures BumpChangelog(BumpChangelog(contents, version, date).value.contents, next, day).Err?
  {
    var note, lines := UnreleasedNote(), Split(contents, '\n');
    NoteSaysNothing();
    SplitGivesLines(contents);
    BumpKeepsContract(note, lines, version, date);
    NothingLeftToRelease(note, lines, version, date, next, day);
    BumpGivesLines(note, lines, version, date);
    SplitJoin(BumpLines(note, lines, version, date).value.lines);
  }

  // ---- the rest of the file, to the character ------------------------------------------------------

  /** The lines with their ends. */
  function Ended(lines: seq<string>): string {
    if lines == [] then "" else lines[0] + ['\n'] + Ended(lines[1..])
  }

  lemma {:induction false} JoinConcat(a: seq<string>, b: seq<string>)
    requires b != []
    ensures Join(a + b) == Ended(a) + Join(b)
  {
    if a == [] {
      assert a + b == b;
    } else {
      assert (a + b)[1..] == a[1..] + b;
      JoinConcat(a[1..], b);
      Regroup(a[0] + ['\n'], Ended(a[1..]), Join(b));
    }
  }

  lemma Regroup(a: string, b: string, c: string)
    ensures (a + b) + c == a + (b + c)
  {
  }

  lemma {:induction false} EndedIsJoined(lines: seq<string>)
    requires lines != []
    ensures Ended(lines) == Join(lines) + ['\n']
  {
    if |lines| > 1 {
      EndedIsJoined(lines[1..]);
    }
  }

  /**
   Every character in front of the `Unreleased` heading and from the next heading on is kept; between
   them stand the fresh section and the text that was checked.
   */
  lemma BumpedTextKeepsTheRest(contents: string, version: string, date: string)
    requires BumpChangelog(contents, version, date).Ok?
    ensures var lines, b := Split(contents, '\n'), BumpChangelog(contents, version, date).value;
      var top, end := Ended(lines[..FirstUnreleased(lines)]), Join(TailOf(lines));
      && b.contents == top + (Ended(FreshUnreleased(UnreleasedNote())) + (b.releasedSection + ['\n'] + end))
      && exists section :: contents == top + (section + end)
  {
    var note, lines := UnreleasedNote(), Split(contents, '\n');
    var h := FirstUnreleased(lines);
    var top, heading, body, tail := lines[..h], lines[h], BodyOf(lines), TailOf(lines);
    BumpIsRewrite(note, lines, version, date);
    var released := BumpLines(note, lines, version, date).value.released;
    RewrittenText(note, top, released, tail);
    JoinSplit(contents);
    LinesInPieces(lines);
    OldText(top, heading, body, tail);
  }

  lemma RewrittenText(note: string, top: seq<string>, released: seq<string>, tail: seq<string>)
    requires released != []
    ensures Join(Rewritten(note, top, released, tail))
         == Ended(top) + (Ended(FreshUnreleased(note)) + (Join(released) + ['\n'] + Join(tail)))
  {
    var opening, end := FreshUnreleased(note), TailText(tail);
    assert Rewritten(note, top, released, tail) == top + (opening + (released + end));
    JoinConcat(top, opening + (released + end));
    JoinConcat(opening, released + end);
    JoinConcat(released, end);
    EndedIsJoined(released);
  }

  lemma OldText(top: seq<string>, heading: string, body: seq<string>, tail: seq<string>)
    ensures exists section :: Join(top + [heading] + (body + tail)) == Ended(top) + (section + Join(tail))
  {
    assert top + [heading] + (body + tail) == top + (([heading] + body) + tail);
    JoinConcat(top, ([heading] + body) + tail);
    if tail == [] {
      assert ([heading] + body) + tail == [heading] + body;
      assert Join([heading] + body) + Join(tail) == Join([heading] + body);
    } else {
      JoinConcat([heading] + body, tail);
    }
  }
}
