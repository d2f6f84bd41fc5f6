/**
 The heading contract of the changelog: what it gives the release notes, and that a bump keeps it.
 */
module ChangelogContract {
  import opened Wrappers
  import opened Text
  import opened Versions
  import opened Changelog
  import opened ChangelogBump
  import opened ChangelogRelease

  /** `## Unreleased`, or `## <version> (<date>)`. */
  predicate FollowsContract(classify: string -> Line, line: string) {
    || IsUnreleased(line)
    || (classify(line).ReleaseLine? && classify(line).version != "Unreleased" && classify(line).date.Some?)
  }

  predicate HeadingContract(classify: string -> Line, lines: seq<string>) {
    forall l :: l in lines && IsHeading(l, false) ==> FollowsContract(classify, l)
  }

  // ---- the notes of the whole file are the notes that were checked ---------------------------------

  /** The release being read ends at the next release line: what comes after does not reach it. */
  lemma {:induction false} FirstEnds(d: Draft, body: seq<Line>, tail: seq<Line>)
    requires tail == [] || tail[0].ReleaseLine?
    ensures var all, own := Finish(Feed(Parser([], Some(d)), body + tail)), Finish(Feed(Parser([], Some(d)), body));
      all != [] && own != [] && all[0] == own[0]
    decreases body
  {
    var p := Parser([], Some(d));
    if body == [] {
      assert body + tail == tail;
      if tail != [] {
        FirstIsClosed(d, tail);
      }
    } else {
      assert (body + tail)[1..] == body[1..] + tail;
      if body[0].ReleaseLine? {
        FirstIsClosed(d, body + tail);
        FirstIsClosed(d, body);
      } else {
        FirstEnds(StepDraft(d, body[0]), body[1..], tail);
      }
    }
  }

  lemma FirstIsClosed(d: Draft, lines: seq<Line>)
    requires lines != [] && lines[0].ReleaseLine?
    ensures var all := Finish(Feed(Parser([], Some(d)), lines)); all != [] && all[0] == Closed(d)
  {
    var q := Step(Parser([], Some(d)), lines[0]);
    assert q.done == [Closed(d)];
    RunFrame(q.done, q.current, lines[1..]);
  }

  /** A section ends at the next release: the same sections are read under another heading, with nothing behind. */
  lemma SectionEndsAtHeading(version: string, date: Option<string>, body: seq<Line>, tail: seq<Line>)
    requires tail == [] || tail[0].ReleaseLine?
    ensures var all := Finish(Feed(Opened("Unreleased", None), body + tail));
      var own := Finish(Feed(Opened(version, date), body));
      all != [] && own != [] && own[0] == Release(version, date, all[0].sections)
  {
    var draft := Draft("Unreleased", None, [], None);
    FirstEnds(draft, body, tail);
    RunRenames(draft, version, date, body);
  }

  /** Every release the parser finds has its heading among the lines. */
  lemma {:induction false} ReleasesHaveHeadings(p: Parser, lines: seq<Line>, r: Release)
    requires r in Finish(Feed(p, lines))
    ensures || (exists x :: x in Finish(p) && x.version == r.version)
            || (exists i :: 0 <= i < |lines| && lines[i].ReleaseLine? && lines[i].version == r.version)
    decreases lines
  {
    if lines != [] {
      var q := Step(p, lines[0]);
      ReleasesHaveHeadings(q, lines[1..], r);
      if x :| x in Finish(q) && x.version == r.version {
        StepKeepsVersions(p, lines[0], x);
      }
    }
  }

  lemma StepKeepsVersions(p: Parser, line: Line, x: Release)
    requires x in Finish(Step(p, line))
    ensures || (exists y :: y in Finish(p) && y.version == x.version)
            || (line.ReleaseLine? && line.version == x.version)
  {
    if p.current.Some? {
      var c := Closed(p.current.value);
      assert Finish(p)[|p.done|] == c && c.version == p.current.value.version;
    }
    if x in p.done {
      assert x in Finish(p);
    }
  }

  /** Under the contract no release in front of the heading carries an unannounced version. */
  lemma NotReleasedBefore(classify: string -> Line, lines: seq<string>, r: Release, version: string)
    requires HeadingContract(classify, lines) && version != "Unreleased"
    requires forall l :: classify(l).ReleaseLine? ==> IsHeading(l, false)
    requires forall l :: IsUnreleased(l) ==> classify(l) == ReleaseLine("Unreleased", None)
    requires forall l :: classify(l).ReleaseLine? && classify(l).date.Some? ==> Announces(l, classify(l).version)
    requires !AnyAnnounces(lines, version)
    requires r in ReadAll(Kinds(classify, lines))
    ensures r.version != version
  {
    ReleasesHaveHeadings(Parser([], None), Kinds(classify, lines), r);
    var i :| 0 <= i < |lines| && Kinds(classify, lines)[i].ReleaseLine? && Kinds(classify, lines)[i].version == r.version;
    KindsAt(classify, lines, i);
    assert lines[i] in lines;
  }

  lemma MeaningStartsWithRelease(classify: string -> Line, lines: seq<string>)
    requires lines == [] || classify(lines[0]).ReleaseLine?
    ensures Meaning(classify, lines) == [] || Meaning(classify, lines)[0].ReleaseLine?
  {
  }

  lemma ReleasedMeansBody(classify: string -> Line, note: string, body: seq<string>, version: string, date: string)
    requires IsReader(classify) && classify(Heading(version, date)).ReleaseLine?
    ensures Meaning(classify, ReleasedSection(version, date, ReleasedBody(note, body)))
         == [classify(Heading(version, date))] + Meaning(classify, Bare(note, body))
  {
    ReleasedMeaning(classify, version, date, ReleasedBody(note, body));
    ReleasedBodyMeaning(classify, note, body);
  }

  lemma ReadOneRelease(version: string, date: Option<string>, rest: seq<Line>)
    ensures ReadAll([ReleaseLine(version, date)] + rest) == Finish(Feed(Opened(version, date), rest))
  {
    assert [] + [ReleaseLine(version, date)] + rest == [ReleaseLine(version, date)] + rest;
    ReadFromHeading([], version, date, rest);
  }

  /** The section that was checked, read on its own. */
  lemma ReleasedReads(note: string, body: seq<string>, version: string, date: string)
    requires Classify(Heading(version, date)) == ReleaseLine(version, Some(Trim(date)))
    ensures ParseLines(ReleasedSection(version, date, ReleasedBody(note, body)))
         == Finish(Feed(Opened(version, Some(Trim(date))), Meaning(Classify, Bare(note, body))))
  {
    ClassifyReads();
    ReadAllMeaning(ReleasedSection(version, date, ReleasedBody(note, body)));
    ReleasedMeansBody(Classify, note, body, version, date);
    ReadOneRelease(version, Some(Trim(date)), Meaning(Classify, Bare(note, body)));
  }

  lemma WholeFileReads(before: seq<string>, heading: string, body: seq<string>, tail: seq<string>)
    requires IsUnreleased(heading)
    ensures ParseLines(before + [heading] + (body + tail))
         == ParseLines(before)
            + Finish(Feed(Opened("Unreleased", None), Meaning(Classify, body) + Meaning(Classify, tail)))
  {
    var classify := Classify;
    UnreleasedIsARelease(heading);
    MeaningConcat(classify, before + [heading], body + tail);
    MeaningConcat(classify, before, [heading]);
    MeaningConcat(classify, body, tail);
    MeaningOf(classify, heading);
    ReadAllMeaning(before + [heading] + (body + tail));
    ReadAllMeaning(before);
    ReadFromHeading(Meaning(classify, before), "Unreleased", None, Meaning(classify, body) + Meaning(classify, tail));
  }

  lemma BodyHasNoRelease(lines: seq<string>)
    requires CountUnreleased(lines) > 0
    ensures forall i :: 0 <= i < |BodyOf(lines)| ==> !Classify(BodyOf(lines)[i]).ReleaseLine?
    ensures forall i :: 0 <= i < |BodyOf(lines)| ==> BodyOf(lines)[i] in lines
  {
    var rest := lines[FirstUnreleased(lines) + 1..];
    forall i | 0 <= i < |BodyOf(lines)|
      ensures !Classify(BodyOf(lines)[i]).ReleaseLine? && BodyOf(lines)[i] in lines
    {
      assert rest[i] == lines[FirstUnreleased(lines) + 1 + i] && BodyOf(lines)[i] == rest[i];
      if Classify(rest[i]).ReleaseLine? {
        ReleasesAreHeadings(rest[i], i == |rest| - 1);
      }
    }
  }

  lemma TailStartsWithRelease(lines: seq<string>)
    requires CountUnreleased(lines) > 0 && HeadingContract(Classify, lines)
    ensures TailOf(lines) == [] || Classify(TailOf(lines)[0]).ReleaseLine?
  {
    var rest := lines[FirstUnreleased(lines) + 1..];
    var n := NextHeading(rest);
    if n < |rest| {
      assert rest[n] == lines[FirstUnreleased(lines) + 1 + n];
      ContractHeadingIsRelease(lines, rest[n], n == |rest| - 1);
    }
  }

  lemma ContractHeadingIsRelease(lines: seq<string>, line: string, last: bool)
    requires HeadingContract(Classify, lines) && line in lines && IsHeading(line, last)
    ensures Classify(line).ReleaseLine?
  {
    assert IsHeading(line, false);
    if IsUnreleased(line) {
      UnreleasedIsARelease(line);
    }
  }

  /** The sections of the old `Unreleased`, its note taken out, are those of the section that was checked. */
  lemma ReleasedIsUnreleased(note: string, lines: seq<string>, version: string, date: string)
    requires CountUnreleased(lines) > 0 && HeadingContract(Classify, lines)
    requires Classify(Heading(version, date)) == ReleaseLine(version, Some(Trim(date)))
    ensures var was := ParseLines(WithoutNote(note, lines));
      var k := |ParseLines(lines[..FirstUnreleased(lines)])|;
      var own := ParseLines(ReleasedSection(version, date, ReleasedBody(note, BodyOf(lines))));
      && k < |was| && was[..k] == ParseLines(lines[..FirstUnreleased(lines)])
      && own != [] && own[0] == Release(version, Some(Trim(date)), was[k].sections)
  {
    var h := FirstUnreleased(lines);
    var bare, tail := Bare(note, BodyOf(lines)), TailOf(lines);
    WholeFileReads(lines[..h], lines[h], bare, tail);
    ReleasedReads(note, BodyOf(lines), version, date);
    TailStartsWithRelease(lines);
    MeaningStartsWithRelease(Classify, tail);
    SectionEndsAtHeading(version, Some(Trim(date)), Meaning(Classify, bare), Meaning(Classify, tail));
  }

  lemma NoneReleasedBefore(lines: seq<string>, h: nat, version: string)
    requires h <= |lines| && HeadingContract(Classify, lines) && !AnyAnnounces(lines, version)
    requires version != "Unreleased"
    ensures forall r :: r in ParseLines(lines[..h]) ==> r.version != version
  {
    forall r | r in ParseLines(lines[..h]) ensures r.version != version {
      forall l | Classify(l).ReleaseLine? ensures IsHeading(l, false) {
        ReleasesAreHeadings(l, false);
      }
      forall l | IsUnreleased(l) ensures Classify(l) == ReleaseLine("Unreleased", None) {
        UnreleasedIsARelease(l);
      }
      forall l | Classify(l).ReleaseLine? && Classify(l).date.Some? ensures Announces(l, Classify(l).version) {
        DatedReleasesAnnounce(l);
      }
      assert forall i :: 0 <= i < h ==> lines[..h][i] == lines[i];
      NotReleasedBefore(Classify, lines[..h], r, version);
    }
  }

  lemma NotesOfMoved(was: seq<Release>, now: seq<Release>, k: nat, version: string, date: string, own: seq<Release>)
    requires Moves(was, now, k, version, date)
    requires version != "Unreleased" && StripV(version) == version
    requires forall r :: r in was[..k] ==> r.version != version
    requires own != [] && own[0] == Release(version, Some(date), was[k].sections)
    ensures NotesFor(now, version) == NotesFor(own, version)
  {
    var v := own[0];
    FindFirstAfter(was[..k] + [Release("Unreleased", None, [])], v, was[k + 1..]);
    assert now == was[..k] + [Release("Unreleased", None, [])] + [v] + was[k + 1..];
  }

  /** What the release publishes from the whole file is what the bump checked, wherever the note stands. */
  lemma NotesAgree(note: string, lines: seq<string>, version: string, date: string)
    requires BumpLines(note, lines, version, date).Ok?
    requires IsReleaseVersion(version) && IsDate(date) && Classify(note) == OtherLine
    requires HeadingContract(Classify, lines)
    ensures var b := BumpLines(note, lines, version, date).value;
      && NotesFor(ParseLines(b.lines), version).Ok?
      && NotesFor(ParseLines(b.lines), version) == NotesFor(ParseLines(b.released), version)
  {
    var h := FirstUnreleased(lines);
    BumpIsRewrite(note, lines, version, date);
    VersionStartsWithDigit(version);
    HeadingReadsBack(version, date);
    BumpMovesUnreleased(note, lines, version, date);
    ReleasedIsUnreleased(note, lines, version, date);
    NoneReleasedBefore(lines, h, version);
    var b := BumpLines(note, lines, version, date).value;
    NotesOfMoved(ParseLines(WithoutNote(note, lines)), ParseLines(b.lines), |ParseLines(lines[..h])|, version, Trim(date),
                 ParseLines(b.released));
  }
}
