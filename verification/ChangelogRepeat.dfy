/**
 After a bump: the contract holds again, and there is nothing to release until something is merged.
 */
module ChangelogRepeat {
  import opened Wrappers
  import opened Text
  import opened Versions
  import opened Changelog
  import opened ChangelogBump
  import opened ChangelogRelease
  import opened ChangelogContract

  lemma {:induction false} CountConcat(a: seq<string>, b: seq<string>)
    ensures CountUnreleased(a + b) == CountUnreleased(a) + CountUnreleased(b)
  {
    if a == [] {
      assert a + b == b;
    } else {
      assert (a + b)[1..] == a[1..] + b;
      CountConcat(a[1..], b);
    }
  }

  lemma {:induction false} CountNone(lines: seq<string>)
    requires forall l :: l in lines ==> !IsUnreleased(l)
    ensures CountUnreleased(lines) == 0
  {
    if lines != [] {
      CountNone(lines[1..]);
    }
  }

  lemma UnreleasedIsHeading(line: string)
    requires IsUnreleased(line)
    ensures IsHeading(line, false)
  {
  }

  /** Nothing but the one heading in a file that has exactly one. */
  lemma OnlyOneUnreleased(lines: seq<string>)
    requires CountUnreleased(lines) == 1
    ensures CountUnreleased(lines[..FirstUnreleased(lines)]) == 0
    ensures CountUnreleased(TailOf(lines)) == 0
  {
    var h := FirstUnreleased(lines);
    CountNone(lines[..h]);
    LinesInPieces(lines);
    CountConcat(lines[..h] + [lines[h]], BodyOf(lines) + TailOf(lines));
    CountConcat(lines[..h], [lines[h]]);
    CountConcat(BodyOf(lines), TailOf(lines));
    assert [lines[h]][1..] == [];
  }

  // ---- the new Unreleased section ----------------------------------------------------------------------

  lemma HeadingHeads(version: string, date: string, last: bool)
    ensures IsHeading(Heading(version, date), last)
  {
    assert Heading(version, date) == "## " + (version + " (" + date + ")");
  }

  function AfterFresh(note: string, released: seq<string>, tail: seq<string>): seq<string> {
    ["", note, ""] + (released + TailText(tail))
  }

  lemma RewrittenShape(note: string, before: seq<string>, released: seq<string>, tail: seq<string>)
    ensures Rewritten(note, before, released, tail) == before + ["## Unreleased"] + AfterFresh(note, released, tail)
  {
    assert FreshUnreleased(note) == ["## Unreleased"] + ["", note, ""];
  }

  lemma PiecesBehind(before: seq<string>, heading: string, after: seq<string>)
    requires CountUnreleased(before) == 0 && IsUnreleased(heading)
    ensures var now := before + [heading] + after;
      && CountUnreleased(now) > 0 && FirstUnreleased(now) == |before|
      && BodyOf(now) == after[..NextHeading(after)]
  {
    FirstBehind(before, heading, after);
    assert (before + [heading] + after)[|before| + 1..] == after;
  }

  lemma AfterFreshStops(note: string, released: seq<string>, tail: seq<string>)
    requires !IsHeading(note, false) && |released| > 1 && IsHeading(released[0], false)
    ensures NextHeading(AfterFresh(note, released, tail)) == 3
    ensures AfterFresh(note, released, tail)[..3] == ["", note, ""]
  {
    var after := AfterFresh(note, released, tail);
    assert after[0] == "" && after[1] == note && after[2] == "" && after[3] == released[0];
    NextIsThird(after);
  }

  lemma FreshIsFirst(note: string, before: seq<string>, version: string, date: string, body: seq<string>, tail: seq<string>)
    requires CountUnreleased(before) == 0 && !IsHeading(note, false)
    ensures var now := Rewritten(note, before, ReleasedSection(version, date, body), tail);
      && CountUnreleased(now) > 0 && FirstUnreleased(now) == |before|
      && BodyOf(now) == ["", note, ""]
  {
    var released := ReleasedSection(version, date, body);
    RewrittenShape(note, before, released, tail);
    FreshHeadingIsUnreleased();
    PiecesBehind(before, "## Unreleased", AfterFresh(note, released, tail));
    HeadingHeads(version, date, false);
    AfterFreshStops(note, released, tail);
  }

  lemma {:induction false} FirstBehind(before: seq<string>, heading: string, after: seq<string>)
    requires CountUnreleased(before) == 0
    ensures IsUnreleased(heading) ==>
      FirstUnreleased(before + [heading] + after) == |before| && CountUnreleased(before + [heading] + after) > 0
  {
    if before == [] {
      assert [] + [heading] + after == [heading] + after && ([heading] + after)[1..] == after;
    } else {
      assert (before + [heading] + after)[1..] == before[1..] + [heading] + after;
      FirstBehind(before[1..], heading, after);
    }
  }

  lemma NextIsThird(lines: seq<string>)
    requires |lines| > 4 && IsHeading(lines[3], false)
    requires !IsHeading(lines[0], false) && !IsHeading(lines[1], false) && !IsHeading(lines[2], false)
    ensures NextHeading(lines) == 3
  {
    var n := NextHeading(lines);
    assert !(n > 3);
    assert n != 0 && n != 1 && n != 2;
  }

  /** A bumped changelog has nothing to release: the next bump refuses, whatever its version. */
  lemma NothingLeftToRelease(note: string, lines: seq<string>, version: string, date: string, next: string, day: string)
    requires BumpLines(note, lines, version, date).Ok?
    requires TrimEnd(note) != "" && !IsHeading(note, false)
    ensures BumpLines(note, BumpLines(note, lines, version, date).value.lines, next, day).Err?
  {
    BumpIsRewrite(note, lines, version, date);
    OnlyOneUnreleased(lines);
    FreshIsFirst(note, lines[..FirstUnreleased(lines)], version, date, ReleasedBody(note, BodyOf(lines)), TailOf(lines));
    NextBumpRefuses(note, BumpLines(note, lines, version, date).value.lines, next, day);
  }

  lemma NextBumpRefuses(note: string, now: seq<string>, next: string, day: string)
    requires CountUnreleased(now) > 0 && BodyOf(now) == ["", note, ""] && TrimEnd(note) != ""
    ensures BumpLines(note, now, next, day).Err?
  {
    EmptyBodyReleasesNothing(note);
    EmptySectionHasNoNotes(next, day);
  }

  lemma EmptyBodyReleasesNothing(note: string)
    requires TrimEnd(note) != ""
    ensures ReleasedBody(note, ["", note, ""]) == []
  {
    assert TrimEnd("") == "";
    assert ["", note, ""][1..] == [note, ""];
    assert DropBlank(["", note, ""]) == [note, ""];
    assert Find(note, note) == 0 && RemoveFirst(note, note) == "";
    assert DropNote(note, [note, ""]) == ["", ""];
    assert ["", ""][1..] == [""] && [""][1..] == [];
    assert DropEmpty([""]) == DropEmpty([]);
    assert DropEmpty(["", ""]) == [];
  }

  lemma EmptySectionHasNoNotes(version: string, date: string)
    ensures NotesFor(ParseLines(ReleasedSection(version, date, [])), version).Err?
  {
    var heading := Heading(version, date);
    HeadingAndBlanks(heading);
    assert ReleasedSection(version, date, []) == [heading] + ["", "", ""];
    ReadAllMeaning(ReleasedSection(version, date, []));
    MeaningOf(Classify, heading);
    OneLineHasNoNotes(Meaning(Classify, [heading]), version);
  }

  lemma HeadingAndBlanks(heading: string)
    ensures Meaning(Classify, [heading] + ["", "", ""]) == Meaning(Classify, [heading])
  {
    ClassifyReads();
    MeaningConcat(Classify, [heading], ["", "", ""]);
    MeaningOfThree(Classify, "", "", "");
    assert TrimEnd("") == "";
    MeaningOf(Classify, "");
  }

  lemma OneLineHasNoNotes(lines: seq<Line>, version: string)
    requires |lines| <= 1
    ensures NotesFor(ReadAll(lines), version).Err?
  {
    if lines != [] {
      assert lines[1..] == [];
      assert Feed(Parser([], None), lines) == Step(Parser([], None), lines[0]);
    }
  }

  // ---- the contract is kept ----------------------------------------------------------------------------

  /** The line that carries the note carries nothing else. */
  predicate NoteStandsAlone(note: string, lines: seq<string>) {
    lines != [] ==>
      if Find(lines[0], note) < |lines[0]| then TrimEnd(RemoveFirst(lines[0], note)) == ""
      else NoteStandsAlone(note, lines[1..])
  }

  predicate All(good: string -> bool, lines: seq<string>) {
    forall l :: l in lines ==> good(l)
  }

  lemma {:induction false} DropBlankKeeps(good: string -> bool, lines: seq<string>)
    requires All(good, lines)
    ensures All(good, DropBlank(lines))
  {
    if lines != [] && TrimEnd(lines[0]) == "" {
      DropBlankKeeps(good, lines[1..]);
    }
  }

  lemma {:induction false} DropEmptyKeeps(good: string -> bool, lines: seq<string>)
    requires All(good, lines)
    ensures All(good, DropEmpty(lines))
  {
    if lines != [] && lines[0] == "" {
      DropEmptyKeeps(good, lines[1..]);
    }
  }

  lemma {:induction false} DropNoteKeeps(good: string -> bool, note: string, lines: seq<string>)
    requires All(good, lines)
    requires (forall l :: good(l) ==> good(RemoveFirst(l, note)))
          || (NoteStandsAlone(note, lines) && forall l :: TrimEnd(l) == "" ==> good(l))
    ensures All(good, DropNote(note, lines))
  {
    if lines != [] {
      assert lines[0] in lines;
      if Find(lines[0], note) == |lines[0]| {
        DropNoteKeeps(good, note, lines[1..]);
      } else {
        assert good(RemoveFirst(lines[0], note));
      }
    }
  }

  lemma {:induction false} TrimLinesKeeps(good: string -> bool, lines: seq<string>)
    requires All(good, lines) && forall l :: good(l) ==> good(TrimEnd(l))
    ensures All(good, TrimLines(lines))
  {
    if lines != [] {
      var init, last := lines[..|lines| - 1], lines[|lines| - 1];
      assert good(TrimEnd(last));
      if TrimEnd(last) == "" {
        TrimLinesKeeps(good, init);
      }
    }
  }

  /** What every line of the body has, every line of the released body has. */
  lemma ReleasedBodyKeeps(good: string -> bool, note: string, body: seq<string>)
    requires All(good, body) && forall l :: good(l) ==> good(TrimEnd(l))
    requires (forall l :: good(l) ==> good(RemoveFirst(l, note)))
          || (NoteStandsAlone(note, DropBlank(body)) && forall l :: TrimEnd(l) == "" ==> good(l))
    ensures All(good, ReleasedBody(note, body))
  {
    DropBlankKeeps(good, body);
    DropNoteKeeps(good, note, DropBlank(body));
    DropEmptyKeeps(good, DropNote(note, DropBlank(body)));
    TrimLinesKeeps(good, DropEmpty(DropNote(note, DropBlank(body))));
  }

  predicate HasNoHeading(lines: seq<string>) {
    forall l :: l in lines ==> !IsHeading(l, false)
  }

  lemma BlankIsNoHeading(line: string)
    requires TrimEnd(line) == ""
    ensures !IsHeading(line, false)
  {
    TrimEndTwice(line);
    assert line != "" ==> IsSpace(line[0]);
  }

  lemma TrimmedIsNoHeading(line: string)
    requires !IsHeading(line, false)
    ensures !IsHeading(TrimEnd(line), false)
  {
    TrimEndTwice(line);
  }

  lemma ReleasedBodyHasNoHeading(note: string, body: seq<string>)
    requires HasNoHeading(body) && NoteStandsAlone(note, DropBlank(body))
    ensures HasNoHeading(ReleasedBody(note, body))
  {
    var good := l => !IsHeading(l, false);
    forall l | good(l) ensures good(TrimEnd(l)) {
      TrimmedIsNoHeading(l);
    }
    forall l | TrimEnd(l) == "" ensures good(l) {
      BlankIsNoHeading(l);
    }
    ReleasedBodyKeeps(good, note, body);
    assert forall l :: l in ReleasedBody(note, body) ==> good(l);
  }

  /** Under the contract no line is a bare `##`, so no line of the body is a heading of any kind. */
  lemma BodyHasNoHeading(lines: seq<string>)
    requires CountUnreleased(lines) > 0 && HeadingContract(Classify, lines)
    ensures HasNoHeading(BodyOf(lines))
  {
    BodyHasNoRelease(lines);
    forall i | 0 <= i < |BodyOf(lines)| ensures !IsHeading(BodyOf(lines)[i], false) {
      if IsHeading(BodyOf(lines)[i], false) {
        ContractHeadingIsRelease(lines, BodyOf(lines)[i], false);
      }
    }
  }

  lemma ReleasedFollowsContract(version: string, date: string, body: seq<string>, l: string)
    requires Classify(Heading(version, date)) == ReleaseLine(version, Some(Trim(date))) && version != "Unreleased"
    requires HasNoHeading(body)
    requires l in ReleasedSection(version, date, body) && IsHeading(l, false)
    ensures FollowsContract(Classify, l) && !IsUnreleased(l)
  {
    EmptyIsNoHeading();
    ReleasedHas(version, date, body, l);
    VersionIsNotUnreleased(l);
  }

  lemma ReleasedHas(version: string, date: string, body: seq<string>, l: string)
    requires l in ReleasedSection(version, date, body)
    ensures l == Heading(version, date) || l == "" || l in body
  {
  }

  lemma EmptyIsNoHeading()
    ensures !IsHeading("", false)
  {
  }

  lemma VersionIsNotUnreleased(l: string)
    requires Classify(l).ReleaseLine? && Classify(l).version != "Unreleased"
    ensures !IsUnreleased(l)
  {
    if IsUnreleased(l) {
      UnreleasedIsARelease(l);
    }
  }

  lemma ReleasedHasNoUnreleased(version: string, date: string, body: seq<string>)
    requires Classify(Heading(version, date)) == ReleaseLine(version, Some(Trim(date))) && version != "Unreleased"
    requires HasNoHeading(body)
    ensures CountUnreleased(ReleasedSection(version, date, body)) == 0
  {
    var released := ReleasedSection(version, date, body);
    forall l | l in released ensures !IsUnreleased(l) {
      if IsUnreleased(l) {
        UnreleasedIsHeading(l);
        ReleasedFollowsContract(version, date, body, l);
      }
    }
    CountNone(released);
  }

  lemma FreshCountsOnce(note: string)
    requires !IsHeading(note, false)
    ensures CountUnreleased(FreshUnreleased(note)) == 1
  {
    FreshHeadingIsUnreleased();
    assert FreshUnreleased(note) == ["## Unreleased"] + ["", note, ""];
    CountConcat(["## Unreleased"], ["", note, ""]);
    CountNone(["", note, ""]);
    assert ["## Unreleased"][1..] == [];
  }

  lemma RewrittenCount(note: string, before: seq<string>, released: seq<string>, tail: seq<string>)
    ensures CountUnreleased(Rewritten(note, before, released, tail))
         == CountUnreleased(before) + CountUnreleased(FreshUnreleased(note))
            + CountUnreleased(released) + CountUnreleased(tail)
  {
    CountConcat(before + FreshUnreleased(note) + released, TailText(tail));
    CountConcat(before + FreshUnreleased(note), released);
    CountConcat(before, FreshUnreleased(note));
    if tail == [] {
      CountNone([""]);
    }
  }

  lemma RewrittenFollowsContract(note: string, before: seq<string>, version: string, date: string,
                                 body: seq<string>, tail: seq<string>, l: string)
    requires Classify(Heading(version, date)) == ReleaseLine(version, Some(Trim(date))) && version != "Unreleased"
    requires HasNoHeading(body) && !IsHeading(note, false)
    requires HeadingContract(Classify, before) && HeadingContract(Classify, tail)
    requires l in Rewritten(note, before, ReleasedSection(version, date, body), tail) && IsHeading(l, false)
    ensures FollowsContract(Classify, l)
  {
    if l in ReleasedSection(version, date, body) {
      ReleasedFollowsContract(version, date, body, l);
    } else if l in FreshUnreleased(note) {
      FreshHeadingIsUnreleased();
    }
  }

  /** What the next bump can start from. */
  predicate IsReady(note: string, lines: seq<string>) {
    && CountUnreleased(lines) == 1 && HeadingContract(Classify, lines)
    && NoteStandsAlone(note, DropBlank(BodyOf(lines)))
  }

  lemma RewriteIsReady(note: string, before: seq<string>, version: string, date: string, body: seq<string>, tail: seq<string>)
    requires Classify(Heading(version, date)) == ReleaseLine(version, Some(Trim(date))) && version != "Unreleased"
    requires HasNoHeading(body) && !IsHeading(note, false) && TrimEnd(note) != ""
    requires HeadingContract(Classify, before) && HeadingContract(Classify, tail)
    requires CountUnreleased(before) == 0 && CountUnreleased(tail) == 0
    ensures IsReady(note, Rewritten(note, before, ReleasedSection(version, date, body), tail))
  {
    var now := Rewritten(note, before, ReleasedSection(version, date, body), tail);
    ReleasedHasNoUnreleased(version, date, body);
    FreshCountsOnce(note);
    RewrittenCount(note, before, ReleasedSection(version, date, body), tail);
    FreshIsFirst(note, before, version, date, body, tail);
    NoteStandsAloneInFresh(note);
    forall l | l in now && IsHeading(l, false) ensures FollowsContract(Classify, l) {
      RewrittenFollowsContract(note, before, version, date, body, tail, l);
    }
  }

  lemma PiecesKeepContract(lines: seq<string>)
    requires CountUnreleased(lines) > 0 && HeadingContract(Classify, lines)
    ensures HeadingContract(Classify, lines[..FirstUnreleased(lines)])
    ensures HeadingContract(Classify, TailOf(lines))
  {
    var rest := lines[FirstUnreleased(lines) + 1..];
    assert forall l :: l in rest ==> l in lines;
    SomeKeepContract(Classify, lines, lines[..FirstUnreleased(lines)]);
    SomeKeepContract(Classify, lines, TailOf(lines));
  }

  lemma SomeKeepContract(classify: string -> Line, lines: seq<string>, some: seq<string>)
    requires HeadingContract(classify, lines) && forall l :: l in some ==> l in lines
    ensures HeadingContract(classify, some)
  {
  }

  /** A bump leaves a changelog that the next bump can start from. */
  lemma BumpKeepsContract(note: string, lines: seq<string>, version: string, date: string)
    requires BumpLines(note, lines, version, date).Ok? && IsReady(note, lines)
    requires IsReleaseVersion(version) && IsDate(date) && !IsHeading(note, false) && TrimEnd(note) != ""
    ensures IsReady(note, BumpLines(note, lines, version, date).value.lines)
  {
    BumpIsRewrite(note, lines, version, date);
    OnlyOneUnreleased(lines);
    HeadingReadsBack(version, date);
    VersionStartsWithDigit(version);
    BodyHasNoHeading(lines);
    ReleasedBodyHasNoHeading(note, BodyOf(lines));
    PiecesKeepContract(lines);
    RewriteIsReady(note, lines[..FirstUnreleased(lines)], version, date, ReleasedBody(note, BodyOf(lines)), TailOf(lines));
  }

  lemma NoteStandsAloneInFresh(note: string)
    requires TrimEnd(note) != ""
    ensures NoteStandsAlone(note, DropBlank(["", note, ""]))
  {
    assert TrimEnd("") == "";
    assert ["", note, ""][1..] == [note, ""];
    assert DropBlank(["", note, ""]) == [note, ""];
    assert Find(note, note) == 0 && RemoveFirst(note, note) == "";
  }

  /** A second bump to the same version is refused by name. */
  lemma BumpAnnouncesVersion(note: string, lines: seq<string>, version: string, date: string)
    requires BumpLines(note, lines, version, date).Ok?
    requires IsReleaseVersion(version) && IsDate(date)
    ensures AnyAnnounces(BumpLines(note, lines, version, date).value.lines, version)
  {
    BumpIsRewrite(note, lines, version, date);
    HeadingReadsBack(version, date);
    DatedReleasesAnnounce(Heading(version, date));
    var before, released := lines[..FirstUnreleased(lines)], BumpLines(note, lines, version, date).value.released;
    var now := Rewritten(note, before, released, TailOf(lines));
    assert now[|before| + 4] == released[0] == Heading(version, date);
  }
}
