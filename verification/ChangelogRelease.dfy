/**
 What a bump does to the changelog as the parser reads it.
 */
module ChangelogRelease {
  import opened Wrappers
  import opened Text
  import opened Versions
  import opened Changelog
  import opened ChangelogBump

  // ---- cleaning the body leaves its content ------------------------------------------------------

  ghost predicate IsReader(classify: string -> Line) {
    forall l ::
      && classify(TrimEnd(l)) == classify(l)
      && (TrimEnd(l) == "" ==> classify(l) == OtherLine)
  }

  lemma ClassifyReads()
    ensures IsReader(Classify)
  {
    forall l ensures Classify(TrimEnd(l)) == Classify(l) && (TrimEnd(l) == "" ==> Classify(l) == OtherLine) {
      TrimmedIsTheSame(l);
    }
  }

  function Meaning(classify: string -> Line, lines: seq<string>): seq<Line> {
    Content(Kinds(classify, lines))
  }

  lemma MeaningConcat(classify: string -> Line, a: seq<string>, b: seq<string>)
    ensures Meaning(classify, a + b) == Meaning(classify, a) + Meaning(classify, b)
  {
    KindsConcat(classify, a, b);
    ContentConcat(Kinds(classify, a), Kinds(classify, b));
  }

  lemma MeaningOf(classify: string -> Line, line: string)
    ensures Meaning(classify, [line]) == if classify(line) == OtherLine then [] else [classify(line)]
  {
    assert Kinds(classify, [line]) == [classify(line)];
    assert Content([]) == [] && [classify(line)][1..] == [];
  }

  lemma {:induction false} DropBlankMeaning(classify: string -> Line, lines: seq<string>)
    requires IsReader(classify)
    ensures Meaning(classify, DropBlank(lines)) == Meaning(classify, lines)
  {
    if lines != [] && TrimEnd(lines[0]) == "" {
      DropBlankMeaning(classify, lines[1..]);
    }
  }

  lemma {:induction false} DropEmptyMeaning(classify: string -> Line, lines: seq<string>)
    requires IsReader(classify)
    ensures Meaning(classify, DropEmpty(lines)) == Meaning(classify, lines)
  {
    if lines != [] && lines[0] == "" {
      assert TrimEnd(lines[0]) == "";
      DropEmptyMeaning(classify, lines[1..]);
    }
  }

  lemma {:induction false} TrimLinesMeaning(classify: string -> Line, lines: seq<string>)
    requires IsReader(classify)
    ensures Meaning(classify, TrimLines(lines)) == Meaning(classify, lines)
  {
    if lines != [] {
      var init, last := lines[..|lines| - 1], lines[|lines| - 1];
      assert lines == init + [last];
      MeaningConcat(classify, init, [last]);
      MeaningOf(classify, last);
      if TrimEnd(last) == "" {
        TrimLinesMeaning(classify, init);
      } else {
        MeaningConcat(classify, init, [TrimEnd(last)]);
        MeaningOf(classify, TrimEnd(last));
      }
    }
  }

  lemma ReleasedBodyMeaning(classify: string -> Line, note: string, body: seq<string>)
    requires IsReader(classify)
    ensures Meaning(classify, ReleasedBody(note, body)) == Meaning(classify, Bare(note, body))
  {
    DropEmptyMeaning(classify, Bare(note, body));
    TrimLinesMeaning(classify, DropEmpty(Bare(note, body)));
  }

  // ---- the bumped file -----------------------------------------------------------------------------

  lemma MeaningOfThree(classify: string -> Line, a: string, b: string, c: string)
    ensures Meaning(classify, [a, b, c]) == Meaning(classify, [a]) + Meaning(classify, [b]) + Meaning(classify, [c])
  {
    assert [a, b, c] == [a] + [b] + [c];
    MeaningConcat(classify, [a] + [b], [c]);
    MeaningConcat(classify, [a], [b]);
  }

  lemma FreshMeaning(classify: string -> Line, note: string)
    requires IsReader(classify) && classify(note) == OtherLine && classify("## Unreleased").ReleaseLine?
    ensures Meaning(classify, FreshUnreleased(note)) == [classify("## Unreleased")]
  {
    assert TrimEnd("") == "";
    assert FreshUnreleased(note) == ["## Unreleased"] + ["", note, ""];
    MeaningConcat(classify, ["## Unreleased"], ["", note, ""]);
    MeaningOfThree(classify, "", note, "");
    MeaningOf(classify, "## Unreleased");
    MeaningOf(classify, "");
    MeaningOf(classify, note);
  }

  lemma ReleasedMeaning(classify: string -> Line, version: string, date: string, body: seq<string>)
    requires IsReader(classify) && classify(Heading(version, date)).ReleaseLine?
    ensures Meaning(classify, ReleasedSection(version, date, body))
         == [classify(Heading(version, date))] + Meaning(classify, body)
  {
    var heading := Heading(version, date);
    assert TrimEnd("") == "";
    assert ReleasedSection(version, date, body) == [heading, "", ""] + (body + [""]);
    MeaningConcat(classify, [heading, "", ""], body + [""]);
    MeaningConcat(classify, body, [""]);
    MeaningOfThree(classify, heading, "", "");
    MeaningOf(classify, heading);
    MeaningOf(classify, "");
  }

  lemma TailMeaning(classify: string -> Line, tail: seq<string>)
    requires IsReader(classify)
    ensures Meaning(classify, TailText(tail)) == Meaning(classify, tail)
  {
    assert TrimEnd("") == "";
    MeaningOf(classify, "");
  }

  /** The two pieces under the heading are the rest of the file. */
  lemma LinesInPieces(lines: seq<string>)
    requires CountUnreleased(lines) > 0
    ensures var h := FirstUnreleased(lines);
      lines == lines[..h] + [lines[h]] + (BodyOf(lines) + TailOf(lines))
  {
  }

  lemma MeaningOfParts(classify: string -> Line, a: seq<string>, b: seq<string>, c: seq<string>, d: seq<string>)
    ensures Meaning(classify, a + b + c + d)
         == Meaning(classify, a) + Meaning(classify, b) + Meaning(classify, c) + Meaning(classify, d)
  {
    MeaningConcat(classify, a + b + c, d);
    MeaningConcat(classify, a + b, c);
    MeaningConcat(classify, a, b);
  }

  lemma RewrittenMeaning(classify: string -> Line, note: string, before: seq<string>, body: seq<string>, tail: seq<string>,
                         version: string, date: string)
    requires IsReader(classify) && classify(note) == OtherLine
    requires classify("## Unreleased").ReleaseLine? && classify(Heading(version, date)).ReleaseLine?
    ensures Meaning(classify, Rewritten(note, before, ReleasedSection(version, date, ReleasedBody(note, body)), tail))
         == Meaning(classify, before) + [classify("## Unreleased"), classify(Heading(version, date))]
            + Meaning(classify, Bare(note, body) + tail)
  {
    var released := ReleasedSection(version, date, ReleasedBody(note, body));
    MeaningOfParts(classify, before, FreshUnreleased(note), released, TailText(tail));
    MeaningConcat(classify, Bare(note, body), tail);
    FreshMeaning(classify, note);
    ReleasedMeaning(classify, version, date, ReleasedBody(note, body));
    ReleasedBodyMeaning(classify, note, body);
    TailMeaning(classify, tail);
  }

  lemma ReadAllMeaning(lines: seq<string>)
    ensures ParseLines(lines) == ReadAll(Meaning(Classify, lines))
  {
    RunSeesContent(Parser([], None), Kinds(Classify, lines));
  }

  lemma FreshHeadingIsUnreleased()
    ensures IsUnreleased("## Unreleased") && Classify("## Unreleased") == ReleaseLine("Unreleased", None)
  {
    AfterHashes("Unreleased");
    assert "## " + "Unreleased" == "## Unreleased";
    UnreleasedIsARelease("## Unreleased");
  }

  lemma BumpIsRewrite(note: string, lines: seq<string>, version: string, date: string)
    requires BumpLines(note, lines, version, date).Ok?
    ensures CountUnreleased(lines) == 1 && !AnyAnnounces(lines, version)
    ensures var b := BumpLines(note, lines, version, date).value;
      && b.released == ReleasedSection(version, date, ReleasedBody(note, BodyOf(lines)))
      && b.lines == Rewritten(note, lines[..FirstUnreleased(lines)], b.released, TailOf(lines))
      && NotesFor(ParseLines(b.released), version).Ok?
  {
  }

  /** `was` and `now` differ in that release `k` of `was` has been renamed behind an empty `Unreleased`. */
  predicate Moves(was: seq<Release>, now: seq<Release>, k: nat, version: string, date: string) {
    && k < |was| && was[k].version == "Unreleased" && was[k].date == None
    && now == was[..k] + [Release("Unreleased", None, []), Release(version, Some(date), was[k].sections)] + was[k + 1..]
  }

  lemma RewriteMovesUnreleased(note: string, before: seq<string>, heading: string, body: seq<string>, tail: seq<string>,
                               version: string, date: string)
    requires IsUnreleased(heading) && Classify(note) == OtherLine
    requires Classify(Heading(version, date)) == ReleaseLine(version, Some(Trim(date)))
    ensures var released := ReleasedSection(version, date, ReleasedBody(note, body));
      Moves(ParseLines(before + [heading] + (Bare(note, body) + tail)), ParseLines(Rewritten(note, before, released, tail)),
            |ParseLines(before)|, version, Trim(date))
  {
    var classify, bare := Classify, Bare(note, body);
    ClassifyReads();
    FreshHeadingIsUnreleased();
    RewrittenMeaning(classify, note, before, body, tail, version, date);
    UnreleasedIsARelease(heading);
    MeaningConcat(classify, before + [heading], bare + tail);
    MeaningConcat(classify, before, [heading]);
    MeaningOf(classify, heading);
    ReadAllMeaning(before + [heading] + (bare + tail));
    ReadAllMeaning(before);
    ReadAllMeaning(Rewritten(note, before, ReleasedSection(version, date, ReleasedBody(note, body)), tail));
    ReadWithHeading(Meaning(classify, before), Meaning(classify, bare + tail), version, Some(Trim(date)));
  }

  /** The changelog with the first note under its heading taken out. */
  function WithoutNote(note: string, lines: seq<string>): seq<string>
    requires CountUnreleased(lines) > 0
  {
    var h := FirstUnreleased(lines);
    lines[..h] + [lines[h]] + (Bare(note, BodyOf(lines)) + TailOf(lines))
  }

  /** Release `k` moved to `now`: both sides of that determine the old releases. */
  lemma MovesBack(was: seq<Release>, other: seq<Release>, now: seq<Release>, k: nat, version: string, date: string)
    requires Moves(was, now, k, version, date)
    ensures Moves(other, now, k, version, date) <==> other == was
  {
    if Moves(other, now, k, version, date) {
      assert now[..k] == was[..k] && now[..k] == other[..k];
      assert now[k + 1].sections == was[k].sections && now[k + 1].sections == other[k].sections;
      assert now[k + 2..] == was[k + 1..] && now[k + 2..] == other[k + 1..];
      assert was == was[..k] + [was[k]] + was[k + 1..];
      assert other == other[..k] + [other[k]] + other[k + 1..];
    }
  }

  /**
   Parsing commutes with the rewrite: of the releases the changelog without its note holds,
   `Unreleased` is replaced by an empty one and by the new version with everything it held, and
   every other stays as it was. It moves the releases of the changelog as it stood exactly when
   the parser reads the same without the note.
   */
  lemma BumpMovesUnreleased(note: string, lines: seq<string>, version: string, date: string)
    requires BumpLines(note, lines, version, date).Ok?
    requires IsReleaseVersion(version) && IsDate(date) && Classify(note) == OtherLine
    ensures var now := ParseLines(BumpLines(note, lines, version, date).value.lines);
      var k := |ParseLines(lines[..FirstUnreleased(lines)])|;
      && Moves(ParseLines(WithoutNote(note, lines)), now, k, version, Trim(date))
      && (Moves(ParseLines(lines), now, k, version, Trim(date)) <==> ParseLines(lines) == ParseLines(WithoutNote(note, lines)))
  {
    var h := FirstUnreleased(lines);
    var now := ParseLines(BumpLines(note, lines, version, date).value.lines);
    BumpIsRewrite(note, lines, version, date);
    HeadingReadsBack(version, date);
    RewriteMovesUnreleased(note, lines[..h], lines[h], BodyOf(lines), TailOf(lines), version, date);
    MovesBack(ParseLines(WithoutNote(note, lines)), ParseLines(lines), now, |ParseLines(lines[..h])|, version, Trim(date));
  }
}
