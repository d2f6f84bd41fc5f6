/**
 What one line does to the releases the parser finds, and so when a bump that takes its note
 out of a line loses something.
 */
module ChangelogEffect {
  import opened Wrappers
  import opened Text
  import opened Versions
  import opened Changelog
  import opened ChangelogBump
  import opened ChangelogRelease

  // ---- the release being read, apart from what follows ------------------------------------------

  /** Neither a heading, a rule nor an entry. */
  predicate IsSilent(line: Line) {
    line.DirectiveLine? || line.OtherLine?
  }

  /** The entries that an open section would still take. */
  function EntriesAhead(lines: seq<Line>): seq<string> {
    if lines == [] then []
    else if lines[0].EntryLine? then [lines[0].entry] + EntriesAhead(lines[1..])
    else if IsSilent(lines[0]) then EntriesAhead(lines[1..])
    else []
  }

  function Adding(d: Draft, entries: seq<string>): Draft {
    if d.open.None? then d else d.(open := Some(d.open.value.(entries := d.open.value.entries + entries)))
  }

  /** What the lines hold whoever is being read when they come. */
  function Behind(lines: seq<Line>): (r: seq<Release>)
    ensures r != []
  {
    RunRenames(Draft("", None, [], None), "", None, lines);
    Finish(Feed(Opened("", None), lines))
  }

  /** A draft ends as its own sections, with the entries still ahead, and what the lines hold in any case. */
  lemma {:induction false} DraftEnds(d: Draft, lines: seq<Line>)
    ensures Finish(Feed(Parser([], Some(d)), lines))
         == [Release(d.version, d.date, Closed(Adding(d, EntriesAhead(lines))).sections + Behind(lines)[0].sections)]
            + Behind(lines)[1..]
    decreases |lines|, 0
  {
    var none := Draft("", None, [], None);
    if lines == [] {
      assert Closed(none).sections == [];
      NoMore(d);
    } else {
      var line := lines[0];
      match line
      case ReleaseLine(_, _) =>
        ReleaseEnds(d, lines);
        ReleaseEnds(none, lines);
        NoMore(d);
        assert Closed(none).sections == [];
      case SectionLine(heading) =>
        SectionBegins(d, heading, lines[1..]);
        SectionBegins(none, heading, lines[1..]);
        NoMore(d);
        var section := [Section(heading, EntriesAhead(lines[1..]))] + Behind(lines[1..])[0].sections;
        assert Closed(none).sections + section == section;
        assert Behind(lines) == [Release("", None, section)] + Behind(lines[1..])[1..];
      case _ =>
        DraftEnds(StepDraft(d, line), lines[1..]);
        DraftEnds(StepDraft(none, line), lines[1..]);
        OneMoreLine(d, line, EntriesAhead(lines[1..]));
        assert StepDraft(none, line) == none by {
          assert Closed(none).sections == [];
        }
    }
  }

  lemma NoMore(d: Draft)
    ensures Adding(d, []) == d && Closed(d).sections + [] == Closed(d).sections
  {
    if d.open.Some? {
      assert d.open.value.entries + [] == d.open.value.entries;
    }
  }

  lemma OneMoreLine(d: Draft, line: Line, entries: seq<string>)
    requires !line.ReleaseLine? && !line.SectionLine?
    ensures var ahead := if line.EntryLine? then [line.entry] + entries else if line.RuleLine? then [] else entries;
      Closed(Adding(StepDraft(d, line), entries)).sections == Closed(Adding(d, ahead)).sections
  {
    NoMore(d);
    if line.EntryLine? && d.open.Some? {
      assert d.open.value.entries + [line.entry] + entries == d.open.value.entries + ([line.entry] + entries);
    }
  }

  lemma ReleaseEnds(d: Draft, lines: seq<Line>)
    requires lines != [] && lines[0].ReleaseLine?
    ensures Finish(Feed(Parser([], Some(d)), lines))
         == [Closed(d)] + Finish(Feed(Opened(lines[0].version, lines[0].date), lines[1..]))
  {
    RunFrame([Closed(d)], Opened(lines[0].version, lines[0].date).current, lines[1..]);
    assert Finish(Parser([], Some(d))) == [Closed(d)];
  }

  lemma {:induction false} SectionBegins(d: Draft, heading: string, lines: seq<Line>)
    ensures Finish(Feed(Parser([], Some(StepDraft(d, SectionLine(heading)))), lines))
         == [Release(d.version, d.date,
                     Closed(d).sections + ([Section(heading, EntriesAhead(lines))] + Behind(lines)[0].sections))]
            + Behind(lines)[1..]
    decreases |lines|, 1
  {
    var e := StepDraft(d, SectionLine(heading));
    DraftEnds(e, lines);
    assert [] + EntriesAhead(lines) == EntriesAhead(lines);
    var section, more := [Section(heading, EntriesAhead(lines))], Behind(lines)[0].sections;
    assert Closed(Adding(e, EntriesAhead(lines))).sections == Closed(d).sections + section;
    assert Closed(d).sections + section + more == Closed(d).sections + (section + more);
  }

  // ---- two lines in one place --------------------------------------------------------------------

  /** A section is open behind these lines, if one was before. */
  predicate OpenBehind(open: bool, lines: seq<Line>)
    decreases lines
  {
    if lines == [] then open
    else OpenBehind(lines[0].SectionLine? || (open && !lines[0].RuleLine? && !lines[0].ReleaseLine?), lines[1..])
  }

  /**
   The two lines do the same where they stand: they are the same; or none of them is a heading, and
   no section is open, or neither is an entry and only a rule in front of further entries would count.
   */
  predicate SameEffect(a: Line, b: Line, open: bool, followed: bool) {
    || a == b
    || (&& !a.ReleaseLine? && !b.ReleaseLine? && !a.SectionLine? && !b.SectionLine?
        && (!open || (!a.EntryLine? && !b.EntryLine? && (!followed || (IsSilent(a) && IsSilent(b))))))
  }

  lemma {:induction false} OpenIsOpen(p: Parser, lines: seq<Line>)
    requires p.current.Some?
    ensures Feed(p, lines).current.Some?
    ensures Feed(p, lines).current.value.open.Some? <==> OpenBehind(p.current.value.open.Some?, lines)
    decreases lines
  {
    if lines != [] {
      OpenIsOpen(Step(p, lines[0]), lines[1..]);
    }
  }

  /** Both are no headings of a release: what they leave of the release being read decides. */
  lemma InsideDecides(p: Parser, a: Line, b: Line, rest: seq<Line>)
    requires p.current.Some? && !a.ReleaseLine? && !b.ReleaseLine?
    ensures var d, ahead := p.current.value, EntriesAhead(rest);
      Finish(Feed(Step(p, a), rest)) == Finish(Feed(Step(p, b), rest))
      <==> Closed(Adding(StepDraft(d, a), ahead)).sections == Closed(Adding(StepDraft(d, b), ahead)).sections
  {
    var d := p.current.value;
    DraftEnds(StepDraft(d, a), rest);
    DraftEnds(StepDraft(d, b), rest);
    RunFrame(p.done, Step(p, a).current, rest);
    RunFrame(p.done, Step(p, b).current, rest);
    var ahead, more := EntriesAhead(rest), Behind(rest);
    var x, y := Closed(Adding(StepDraft(d, a), ahead)).sections, Closed(Adding(StepDraft(d, b), ahead)).sections;
    FirstDiffers(p.done, Release(d.version, d.date, x + more[0].sections), Release(d.version, d.date, y + more[0].sections), more[1..]);
    SameBehind(x, y, more[0].sections);
  }

  lemma SameBehind<T>(x: seq<T>, y: seq<T>, more: seq<T>)
    ensures x + more == y + more <==> x == y
  {
    if x + more == y + more {
      assert |x| == |y| && (x + more)[..|x|] == x && (y + more)[..|y|] == y;
    }
  }

  lemma FirstDiffers<T>(done: seq<T>, x: T, y: T, more: seq<T>)
    ensures done + ([x] + more) == done + ([y] + more) <==> x == y
  {
    if done + ([x] + more) == done + ([y] + more) {
      assert (done + ([x] + more))[|done|] == x && (done + ([y] + more))[|done|] == y;
    }
  }

  /** Where no release begins, the sections left agree exactly when the lines have the same effect. */
  lemma SectionsAgree(d: Draft, a: Line, b: Line, ahead: seq<string>)
    requires !a.ReleaseLine? && !b.ReleaseLine?
    ensures Closed(Adding(StepDraft(d, a), ahead)).sections == Closed(Adding(StepDraft(d, b), ahead)).sections
       <==> SameEffect(a, b, d.open.Some?, ahead != [])
  {
    EffectOf(d, a, ahead);
    EffectOf(d, b, ahead);
    if a.SectionLine? && b.SectionLine? {
      LastDiffers(Closed(d).sections, Section(a.heading, ahead), Section(b.heading, ahead));
    } else if d.open.Some? && !a.SectionLine? && !b.SectionLine? {
      var x, y := OpenEntries(d.open.value.entries, a, ahead), OpenEntries(d.open.value.entries, b, ahead);
      EntriesDiffer(d.open.value.entries, a, b, ahead);
      LastDiffers(d.sections, d.open.value.(entries := x), d.open.value.(entries := y));
    }
  }

  lemma LastDiffers<T>(xs: seq<T>, x: T, y: T)
    ensures xs + [x] == xs + [y] <==> x == y
  {
    if xs + [x] == xs + [y] {
      assert (xs + [x])[|xs|] == x && (xs + [y])[|xs|] == y;
    }
  }

  /** The entries of the open section, as a line that is no heading leaves them. */
  function OpenEntries(entries: seq<string>, line: Line, ahead: seq<string>): seq<string> {
    if line.EntryLine? then entries + [line.entry] + ahead
    else if line.RuleLine? then entries
    else entries + ahead
  }

  lemma EffectOf(d: Draft, line: Line, ahead: seq<string>)
    requires !line.ReleaseLine?
    ensures Closed(Adding(StepDraft(d, line), ahead)).sections
         == if line.SectionLine? then Closed(d).sections + [Section(line.heading, ahead)]
            else if d.open.None? then d.sections
            else d.sections + [d.open.value.(entries := OpenEntries(d.open.value.entries, line, ahead))]
  {
    NoMore(d);
    assert [] + ahead == ahead;
  }

  lemma EntriesDiffer(entries: seq<string>, a: Line, b: Line, ahead: seq<string>)
    requires !a.ReleaseLine? && !b.ReleaseLine? && !a.SectionLine? && !b.SectionLine?
    ensures OpenEntries(entries, a, ahead) == OpenEntries(entries, b, ahead) <==> SameEffect(a, b, true, ahead != [])
  {
    if a.EntryLine? && b.EntryLine? {
      assert (entries + [a.entry] + ahead)[|entries|] == a.entry && (entries + [b.entry] + ahead)[|entries|] == b.entry;
    }
  }

  /** Where a release is being read, the rest reads the same behind either line exactly when they have the same effect. */
  lemma LineDecides(p: Parser, a: Line, b: Line, rest: seq<Line>)
    requires p.current.Some?
    ensures Finish(Feed(Step(p, a), rest)) == Finish(Feed(Step(p, b), rest))
       <==> SameEffect(a, b, p.current.value.open.Some?, EntriesAhead(rest) != [])
  {
    var d := p.current.value;
    if !a.ReleaseLine? && !b.ReleaseLine? {
      InsideDecides(p, a, b, rest);
      SectionsAgree(d, a, b, EntriesAhead(rest));
    } else {
      Ends(p, a, rest);
      Ends(p, b, rest);
    }
  }

  /** How many releases there are behind a line, and which one it begins. */
  lemma Ends(p: Parser, line: Line, rest: seq<Line>)
    requires p.current.Some?
    ensures var all, n := Finish(Feed(Step(p, line), rest)), |p.done| + |Behind(rest)|;
      if line.ReleaseLine?
      then |all| == n + 1 && all[|p.done| + 1].version == line.version && all[|p.done| + 1].date == line.date
           && all == Finish(p) + ([Release(line.version, line.date, Behind(rest)[0].sections)] + Behind(rest)[1..])
      else |all| == n
  {
    if line.ReleaseLine? {
      var d := Draft(line.version, line.date, [], None);
      RunFrame(Finish(p), Some(d), rest);
      DraftEnds(d, rest);
      assert Closed(d).sections == [] && [] + Behind(rest)[0].sections == Behind(rest)[0].sections;
    } else {
      RunFrame(p.done, Step(p, line).current, rest);
      DraftEnds(StepDraft(p.current.value, line), rest);
    }
  }

  // ---- the line that loses the note ------------------------------------------------------------------

  /** The line the note is taken from, or the number of lines. */
  function NoteAt(note: string, lines: seq<string>): (j: nat)
    ensures j <= |lines|
  {
    if lines == [] || Find(lines[0], note) < |lines[0]| then 0 else 1 + NoteAt(note, lines[1..])
  }

  lemma {:induction false} DropNoteAt(note: string, lines: seq<string>)
    ensures var j := NoteAt(note, lines);
      DropNote(note, lines) == if j < |lines| then lines[..j] + [RemoveFirst(lines[j], note)] + lines[j + 1..] else lines
  {
    if lines != [] && Find(lines[0], note) == |lines[0]| {
      var rest, j := lines[1..], NoteAt(note, lines[1..]);
      DropNoteAt(note, rest);
      assert lines == [lines[0]] + rest;
      if j < |rest| {
        OneFurther(lines[0], rest, j, RemoveFirst(rest[j], note));
      }
    }
  }

  lemma OneFurther<T>(first: T, rest: seq<T>, j: nat, x: T)
    requires j < |rest|
    ensures var all := [first] + rest; all[..j + 1] + [x] + all[j + 2..] == [first] + (rest[..j] + [x] + rest[j + 1..])
    ensures ([first] + rest)[j + 1] == rest[j]
  {
  }

  /**
   The line that loses its note does the same without it: it reads as the same line, or it has no effect
   where it stands, before and after.
   */
  predicate NoteIsUnread(note: string, body: seq<string>, tail: seq<string>) {
    var j := NoteAt(note, body);
    j < |body| ==>
      SameEffect(Classify(body[j]), Classify(RemoveFirst(body[j], note)), OpenBehind(false, Kinds(Classify, body[..j])),
                 EntriesAhead(Kinds(Classify, body[j + 1..] + tail)) != [])
  }

  lemma LinesAround(before: seq<string>, line: string, rest: seq<string>)
    ensures ParseLines(before + [line] + rest)
         == Finish(Feed(Step(Feed(Parser([], None), Kinds(Classify, before)), Classify(line)), Kinds(Classify, rest)))
  {
    var start, kinds := Parser([], None), Kinds(Classify, before);
    KindsConcat(Classify, before + [line], rest);
    KindsConcat(Classify, before, [line]);
    assert Kinds(Classify, [line]) == [Classify(line)];
    RunConcat(start, kinds + [Classify(line)], Kinds(Classify, rest));
    RunConcat(start, kinds, [Classify(line)]);
    assert [Classify(line)][1..] == [];
  }

  lemma OpenUnderHeading(before: seq<string>, heading: string, body: seq<string>)
    requires IsUnreleased(heading)
    ensures var p := Feed(Parser([], None), Kinds(Classify, before + [heading] + body));
      p.current.Some? && (p.current.value.open.Some? <==> OpenBehind(false, Kinds(Classify, body)))
  {
    var start, line := Parser([], None), Classify(heading);
    UnreleasedIsARelease(heading);
    KindsConcat(Classify, before + [heading], body);
    KindsConcat(Classify, before, [heading]);
    assert Kinds(Classify, [heading]) == [line] && [line][1..] == [];
    RunConcat(start, Kinds(Classify, before) + [line], Kinds(Classify, body));
    RunConcat(start, Kinds(Classify, before), [line]);
    OpenIsOpen(Step(Feed(start, Kinds(Classify, before)), line), Kinds(Classify, body));
  }

  /** Under an `Unreleased` heading: the rest reads the same with another line in one place exactly when it has the same effect. */
  lemma OneLineDecides(before: seq<string>, heading: string, body: seq<string>, a: string, b: string, rest: seq<string>)
    requires IsUnreleased(heading)
    ensures ParseLines((before + [heading] + body) + [a] + rest) == ParseLines((before + [heading] + body) + [b] + rest)
       <==> SameEffect(Classify(a), Classify(b), OpenBehind(false, Kinds(Classify, body)),
                       EntriesAhead(Kinds(Classify, rest)) != [])
  {
    var top := before + [heading] + body;
    OpenUnderHeading(before, heading, body);
    LinesAround(top, a, rest);
    LinesAround(top, b, rest);
    LineDecides(Feed(Parser([], None), Kinds(Classify, top)), Classify(a), Classify(b), Kinds(Classify, rest));
  }

  lemma BodyWithLine(before: seq<string>, heading: string, early: seq<string>, a: string, b: string, late: seq<string>,
                     tail: seq<string>)
    requires IsUnreleased(heading)
    ensures ParseLines(before + [heading] + ((early + [a] + late) + tail))
         == ParseLines(before + [heading] + ((early + [b] + late) + tail))
       <==> SameEffect(Classify(a), Classify(b), OpenBehind(false, Kinds(Classify, early)),
                       EntriesAhead(Kinds(Classify, late + tail)) != [])
  {
    InOneLine(before, heading, early, a, late, tail);
    InOneLine(before, heading, early, b, late, tail);
    OneLineDecides(before, heading, early, a, b, late + tail);
  }

  lemma InOneLine<T>(before: seq<T>, heading: T, early: seq<T>, line: T, late: seq<T>, tail: seq<T>)
    ensures before + [heading] + ((early + [line] + late) + tail) == (before + [heading] + early) + [line] + (late + tail)
  {
  }

  lemma BodyWithoutNote(note: string, before: seq<string>, heading: string, body: seq<string>, tail: seq<string>)
    requires IsUnreleased(heading)
    ensures ParseLines(before + [heading] + (body + tail)) == ParseLines(before + [heading] + (DropNote(note, body) + tail))
       <==> NoteIsUnread(note, body, tail)
  {
    var j := NoteAt(note, body);
    DropNoteAt(note, body);
    if j < |body| {
      AroundAt(body, j);
      BodyWithLine(before, heading, body[..j], body[j], RemoveFirst(body[j], note), body[j + 1..], tail);
    }
  }

  lemma AroundAt<T>(s: seq<T>, i: nat)
    requires i < |s|
    ensures s == s[..i] + [s[i]] + s[i + 1..]
  {
  }

  lemma BlankIsSilent(before: seq<string>, heading: string, body: seq<string>, tail: seq<string>)
    ensures ParseLines(before + [heading] + (DropBlank(body) + tail)) == ParseLines(before + [heading] + (body + tail))
  {
    var classify := Classify;
    ClassifyReads();
    DropBlankMeaning(classify, body);
    MeaningConcat(classify, before + [heading], body + tail);
    MeaningConcat(classify, before + [heading], DropBlank(body) + tail);
    MeaningConcat(classify, body, tail);
    MeaningConcat(classify, DropBlank(body), tail);
    ReadAllMeaning(before + [heading] + (body + tail));
    ReadAllMeaning(before + [heading] + (DropBlank(body) + tail));
  }

  /** The changelog reads the same without its note exactly when the one line that loses it does the same without it. */
  lemma NoteReadsExactly(note: string, lines: seq<string>)
    requires CountUnreleased(lines) > 0
    ensures ParseLines(lines) == ParseLines(WithoutNote(note, lines))
       <==> NoteIsUnread(note, DropBlank(BodyOf(lines)), TailOf(lines))
  {
    var h := FirstUnreleased(lines);
    LinesInPieces(lines);
    BlankIsSilent(lines[..h], lines[h], BodyOf(lines), TailOf(lines));
    BodyWithoutNote(note, lines[..h], lines[h], DropBlank(BodyOf(lines)), TailOf(lines));
  }

  /** So the bump moves all the changelog held as unreleased, and touches nothing else, exactly then. */
  lemma BumpMovesExactly(note: string, lines: seq<string>, version: string, date: string)
    requires BumpLines(note, lines, version, date).Ok?
    requires IsReleaseVersion(version) && IsDate(date) && Classify(note) == OtherLine
    ensures Moves(ParseLines(lines), ParseLines(BumpLines(note, lines, version, date).value.lines),
                  |ParseLines(lines[..FirstUnreleased(lines)])|, version, Trim(date))
       <==> NoteIsUnread(note, DropBlank(BodyOf(lines)), TailOf(lines))
  {
    BumpMovesUnreleased(note, lines, version, date);
    NoteReadsExactly(note, lines);
  }
}
