/**
 The container block in a release's notes: `scripts/container-notes.ts`.
 */
module ContainerNotes {
  import opened Wrappers
  import opened Text

  datatype Input = Input(version: string, indexDigest: string, dhRef: string, ghcrRef: string)

  function Start(): string {
    "<!-- container:start -->"
  }

  function End(): string {
    "<!-- container:end -->"
  }

  /** The lines between the markers. */
  function Inner(input: Input): string {
    "\n### Container image\n\n```\n"
    + PullLines(input)
    + "```\n\n"
    + DigestLines(input)
    + UsageLines()
  }

  function PullLines(input: Input): string {
    "docker pull " + input.dhRef + ":" + input.version + "\n"
    + "docker pull " + input.ghcrRef + ":" + input.version + "\n"
  }

  function DigestLines(input: Input): string {
    "Both registries serve the same " + "`linux/amd64` + `linux/arm64` index,\n" + "`" + input.indexDigest + "`.\n\n"
  }

  function UsageLines(): string {
    "The image ships without OpenCode, so" + " a bare `docker run` exits at\n"
    + "startup by design. See [Run it in a" + " container](https://github.com/"
    + "looptroop-ai/LoopTroop#run-it-in-" + "a-container)\nfor how to point it "
    + "at a server and reach the interface.\n"
  }

  function ContainerBlock(input: Input): string {
    Start() + Inner(input) + End()
  }

  function Ended(s: string): string {
    if s != "" && s[|s| - 1] == '\n' then s else s + "\n"
  }

  function SpliceContainerBlock(body: string, input: Input): Result<string> {
    Splice(body, ContainerBlock(input))
  }

  function Splice(body: string, block: string): Result<string> {
    var start, end := Find(body, Start()), Find(body, End());
    if start < |body| && end < |body| && end > start then
      Ok(Ended(body[..start] + block + body[end + |End()|..]))
    else if start < |body| || end < |body| then Err("one container marker without the other")
    else Ok(Ended(TrimEnd(body) + "\n\n" + block))
  }

  // ---- markers do not overlap --------------------------------------------------------------------------

  /** The first character of the marker occurs in it nowhere else. */
  predicate IsMarker(t: string) {
    t != "" && forall i :: 0 < i < |t| ==> t[i] != t[0]
  }

  lemma MarkersAreMarkers()
    ensures IsMarker(Start()) && IsMarker(End()) && Start()[0] == '<' && End()[0] == '<'
    ensures |Start()| == 24 && |End()| == 22 && Start()[15] != End()[15]
  {
  }

  /** No occurrence straddles the place where a second text starts with the marker's first character. */
  lemma FreeJoins(a: string, b: string, t: string)
    requires IsMarker(t) && Free(a, t) && Free(b, t) && b != "" && b[0] == t[0]
    ensures Free(a + b, t)
  {
    var s := a + b;
    forall i | 0 <= i < |s| ensures !StartsWith(s[i..], t) {
      if i >= |a| {
        assert s[i..] == b[i - |a|..];
      } else if i + |t| <= |a| {
        assert s[i..][..|t|] == a[i..][..|t|];
      } else {
        assert s[i..][|a| - i] == b[0];
        assert |t| <= |s[i..]| ==> s[i..][..|t|][|a| - i] == b[0];
      }
    }
  }

  lemma FindBehind(a: string, t: string, b: string)
    requires IsMarker(t) && Free(a, t)
    ensures Find(a + t + b, t) == |a| && |a| < |a + t + b|
  {
    var s := a + t + b;
    forall i | 0 <= i < |a| ensures !StartsWith(s[i..], t) {
      if i + |t| <= |a| {
        assert s[i..][..|t|] == a[i..][..|t|];
      } else {
        assert s[i..][..|t|][|a| - i] == t[0];
      }
    }
    assert s[|a|..][..|t|] == t;
  }

  /** Two different markers: one does not occur in the other and what follows it. */
  lemma FreeBehindMarker(other: string, b: string, t: string)
    requires IsMarker(t) && IsMarker(other) && other[0] == t[0] && Free(b, t)
    requires exists k :: 0 <= k < |other| && k < |t| && other[k] != t[k]
    ensures Free(other + b, t)
  {
    var s := other + b;
    var k :| 0 <= k < |other| && k < |t| && other[k] != t[k];
    forall i | 0 <= i < |s| ensures !StartsWith(s[i..], t) {
      if i >= |other| {
        assert s[i..] == b[i - |other|..];
      } else if i > 0 {
        assert s[i..][0] == other[i];
        assert |t| <= |s[i..]| ==> s[i..][..|t|][0] == other[i];
      } else {
        assert |t| <= |s| ==> s[i..][..|t|][k] == other[k];
      }
    }
  }

  // ---- what a splice leaves ------------------------------------------------------------------------------

  /** Text before the block, the text between the markers, and text behind it. */
  function Marked(before: string, inner: string, behind: string): string {
    before + Start() + inner + End() + behind
  }

  lemma MarkedInPieces(before: string, inner: string, behind: string)
    ensures Marked(before, inner, behind) == before + Start() + (inner + End() + behind)
    ensures Marked(before, inner, behind) == (before + (Start() + inner)) + End() + behind
  {
  }

  lemma PiecesOf(a: string, b: string, c: string)
    ensures (a + b + c)[..|a|] == a && (a + b + c)[|a| + |b|..] == c
  {
  }

  lemma FindInMarked(before: string, inner: string, behind: string)
    requires Free(before, Start()) && Free(before, End()) && Free(inner, End())
    ensures var s := Marked(before, inner, behind);
      && Find(s, Start()) == |before| && Find(s, End()) == |before| + |Start()| + |inner|
      && Find(s, Start()) < |s| && Find(s, End()) < |s|
      && s[..|before|] == before && s[|before| + |Start()| + |inner| + |End()|..] == behind
  {
    var opening := Start() + inner;
    MarkersAreMarkers();
    MarkedInPieces(before, inner, behind);
    FindBehind(before, Start(), inner + End() + behind);
    PiecesOf(before, Start(), inner + End() + behind);
    FreeBehindMarker(Start(), inner, End());
    FreeJoins(before, opening, End());
    FindBehind(before + opening, End(), behind);
    PiecesOf(before + opening, End(), behind);
  }

  /** Replacing the text between the markers and nothing else. */
  lemma SpliceMarked(before: string, inner: string, behind: string, block: string)
    requires Free(before, Start()) && Free(before, End()) && Free(inner, End())
    ensures Splice(Marked(before, inner, behind), block) == Ok(Ended(before + block + behind))
  {
    FindInMarked(before, inner, behind);
  }

  /** Whatever is spliced in, the text around the block is the body's own. */
  function Before(body: string): string {
    if Find(body, Start()) < |body| then body[..Find(body, Start())] else TrimEnd(body) + "\n\n"
  }

  function Behind(body: string): string {
    if Find(body, End()) < |body| then body[Find(body, End()) + |End()|..] else ""
  }

  predicate Accepts(body: string) {
    var start, end := Find(body, Start()), Find(body, End());
    (start == |body| && end == |body|) || (start < |body| && end < |body| && end > start)
  }

  lemma AcceptsExactly(body: string, block: string)
    ensures Splice(body, block).Ok? <==> Accepts(body)
    ensures Accepts(body) ==> Splice(body, block) == Ok(Ended(Before(body) + block + Behind(body)))
  {
    assert TrimEnd(body) + "\n\n" + block == TrimEnd(body) + "\n\n" + block + "";
  }

  // ---- the laws ----------------------------------------------------------------------------------------------

  /** Neither half around the block holds a marker the next splice could take for the block's own. */
  lemma AroundIsFree(body: string)
    requires Accepts(body)
    ensures Free(Before(body), Start()) && Free(Before(body), End())
  {
    var start, end := Find(body, Start()), Find(body, End());
    MarkersAreOneLine();
    if start < |body| {
      FreePrefix(body, start, Start());
      FreePrefix(body, start, End());
    } else {
      FindNone(body, Start());
      FindNone(body, End());
      TrimmedIsFree(body, Start());
      TrimmedIsFree(body, End());
    }
  }

  lemma FreePrefix(s: string, n: nat, t: string)
    requires n <= |s| && t != "" && forall i :: 0 <= i < n ==> !StartsWith(s[i..], t)
    ensures Free(s[..n], t)
  {
    forall i | 0 <= i < n ensures !StartsWith(s[..n][i..], t) {
      assert |t| <= n - i ==> s[..n][i..][..|t|] == s[i..][..|t|];
    }
  }

  /** Characters the marker does not have cannot complete it. */
  lemma FreeAppend(a: string, b: string, t: string)
    requires Free(a, t) && t != "" && forall j :: 0 <= j < |b| ==> Without(t, b[j])
    ensures Free(a + b, t)
  {
    var s := a + b;
    forall i | 0 <= i < |s| ensures !StartsWith(s[i..], t) {
      if i + |t| <= |a| {
        assert s[i..][..|t|] == a[i..][..|t|];
      } else if i < |a| {
        assert s[|a|..] == b;
        assert i + |t| <= |s| ==> s[i..][..|t|][|a| - i] == b[0];
      } else {
        assert s[i] == b[i - |a|];
        assert i + |t| <= |s| ==> s[i..][..|t|][0] == b[i - |a|];
      }
    }
  }

  lemma MarkersAreOneLine()
    ensures Without(Start(), '\n') && Without(End(), '\n') && Start() != "" && End() != ""
  {
  }

  lemma TrimmedIsFree(s: string, t: string)
    requires Free(s, t) && t != "" && Without(t, '\n')
    ensures Free(TrimEnd(s) + "\n\n", t)
  {
    TrimEndTwice(s);
    FreePrefix(s, |TrimEnd(s)|, t);
    FreeAppend(TrimEnd(s), "\n\n", t);
  }

  lemma EndedBehind(before: string, block: string, behind: string)
    requires block != "" && block[|block| - 1] != '\n'
    ensures var rest := if behind != "" && behind[|behind| - 1] == '\n' then behind else behind + "\n";
      Ended(before + block + behind) == before + block + rest && rest != "" && rest[|rest| - 1] == '\n'
  {
    var s := before + block + behind;
    if behind == "" {
      assert s[|s| - 1] == block[|block| - 1];
    } else {
      assert s[|s| - 1] == behind[|behind| - 1];
    }
    assert s + "\n" == before + block + (behind + "\n");
  }

  /** What ends up behind the block: the body's own, with a final newline. */
  function FinalBehind(body: string): string {
    var behind := Behind(body);
    if behind != "" && behind[|behind| - 1] == '\n' then behind else behind + "\n"
  }

  function Block(inner: string): string {
    Start() + inner + End()
  }

  lemma BlockIsSolid(inner: string)
    ensures Block(inner) != "" && Block(inner)[|Block(inner)| - 1] != '\n'
  {
    MarkersAreOneLine();
  }

  lemma BlockInText(before: string, inner: string, behind: string)
    ensures before + Block(inner) + behind == Marked(before, inner, behind)
  {
  }

  /** The whole result: the body's text around one block. */
  lemma SpliceKeepsTheRest(body: string, inner: string)
    requires Accepts(body)
    ensures Splice(body, Block(inner)) == Ok(Marked(Before(body), inner, FinalBehind(body)))
  {
    AcceptsExactly(body, Block(inner));
    BlockIsSolid(inner);
    EndedBehind(Before(body), Block(inner), Behind(body));
    BlockInText(Before(body), inner, FinalBehind(body));
  }

  /** Last writer wins, and writing twice is writing once. */
  lemma LastWriterWins(body: string, x: string, y: string)
    requires Accepts(body) && Free(x, End())
    ensures Splice(body, Block(x)).Ok?
    ensures Splice(Splice(body, Block(x)).value, Block(y)) == Splice(body, Block(y))
  {
    var before, behind := Before(body), FinalBehind(body);
    SpliceKeepsTheRest(body, x);
    SpliceKeepsTheRest(body, y);
    AroundIsFree(body);
    SpliceMarked(before, x, behind, Block(y));
    BlockIsSolid(y);
    EndedBehind(before, Block(y), behind);
    BlockInText(before, y, behind);
  }

  /** A block that carries the closing marker in its text breaks the law: each re-run leaves more behind. */
  lemma EarlyEndLeavesText(body: string, x: string, y: string)
    requires Accepts(body) && !Free(x, End())
    ensures Splice(body, Block(x)).Ok?
    ensures Splice(Splice(body, Block(x)).value, Block(y)) != Splice(body, Block(y))
  {
    var before, behind := Before(body), FinalBehind(body);
    var i := Find(x, End());
    FindNone(x, End());
    var head, rest := x[..i], x[i + |End()|..];
    MarkersAreMarkers();
    FreePrefix(x, i, End());
    CutAtEnd(x, i);
    SpliceKeepsTheRest(body, x);
    SpliceKeepsTheRest(body, y);
    AroundIsFree(body);
    var leftover := rest + End() + behind;
    MarkedEarlier(before, head, rest, behind);
    SpliceMarked(before, head, leftover, Block(y));
    BlockIsSolid(y);
    EndedBehind(before, Block(y), leftover);
  }

  lemma CutAtEnd(x: string, i: nat)
    requires i < |x| && StartsWith(x[i..], End())
    ensures i + |End()| <= |x| && x == x[..i] + End() + x[i + |End()|..]
  {
  }

  lemma MarkedEarlier(before: string, head: string, rest: string, behind: string)
    ensures Marked(before, head + End() + rest, behind) == Marked(before, head, rest + End() + behind)
  {
  }

  /** The exact condition under which the block of `x` can be replaced again. */
  lemma ReplaceableIff(body: string, x: Input, y: Input)
    requires Accepts(body)
    ensures SpliceContainerBlock(body, x).Ok?
    ensures SpliceContainerBlock(SpliceContainerBlock(body, x).value, y) == SpliceContainerBlock(body, y)
       <==> Free(Inner(x), End())
  {
    if Free(Inner(x), End()) {
      LastWriterWins(body, Inner(x), Inner(y));
    } else {
      EarlyEndLeavesText(body, Inner(x), Inner(y));
    }
  }

  // ---- inputs without a bracket ----------------------------------------------------------------------------

  lemma WithoutJoins(a: string, b: string, c: char)
    requires Without(a, c) && Without(b, c)
    ensures Without(a + b, c)
  {
  }

  predicate IsPlain(input: Input) {
    && Without(input.version, '<') && Without(input.indexDigest, '<')
    && Without(input.dhRef, '<') && Without(input.ghcrRef, '<')
  }

  lemma PullLinesArePlain(input: Input)
    requires IsPlain(input)
    ensures Without(PullLines(input), '<')
  {
    var first := "docker pull " + input.dhRef + ":" + input.version + "\n";
    var second := "docker pull " + input.ghcrRef + ":" + input.version + "\n";
    assert Without(first, '<') && Without(second, '<');
    WithoutJoins(first, second, '<');
    assert PullLines(input) == first + second;
  }

  lemma DigestLinesArePlain(input: Input)
    requires IsPlain(input)
    ensures Without(DigestLines(input), '<')
  {
    WithoutJoins("Both registries serve the same ", "`linux/amd64` + `linux/arm64` index,\n", '<');
    var head := "Both registries serve the same " + "`linux/amd64` + `linux/arm64` index,\n";
    WithoutJoins(head, "`", '<');
    WithoutJoins(head + "`", input.indexDigest, '<');
    WithoutJoins(head + "`" + input.indexDigest, "`.\n\n", '<');
  }

  lemma UsagePiecesArePlain()
    ensures Without("The image ships without OpenCode, so", '<') && Without(" a bare `docker run` exits at\n", '<')
    ensures Without("startup by design. See [Run it in a", '<') && Without(" container](https://github.com/", '<')
  {
  }

  lemma MoreUsagePiecesArePlain()
    ensures Without("looptroop-ai/LoopTroop#run-it-in-", '<') && Without("a-container)\nfor how to point it ", '<')
    ensures Without("at a server and reach the interface.\n", '<')
  {
  }

  lemma SevenWithout(a: string, b: string, c: string, d: string, e: string, f: string, g: string, x: char)
    requires Without(a, x) && Without(b, x) && Without(c, x) && Without(d, x) && Without(e, x) && Without(f, x) && Without(g, x)
    ensures Without(a + b + c + d + e + f + g, x)
  {
    WithoutJoins(a, b, x);
    WithoutJoins(a + b, c, x);
    WithoutJoins(a + b + c, d, x);
    WithoutJoins(a + b + c + d, e, x);
    WithoutJoins(a + b + c + d + e, f, x);
    WithoutJoins(a + b + c + d + e + f, g, x);
  }

  lemma UsageLinesArePlain()
    ensures Without(UsageLines(), '<')
  {
    UsagePiecesArePlain();
    MoreUsagePiecesArePlain();
    SevenWithout("The image ships without OpenCode, so", " a bare `docker run` exits at\n",
                 "startup by design. See [Run it in a", " container](https://github.com/",
                 "looptroop-ai/LoopTroop#run-it-in-", "a-container)\nfor how to point it ",
                 "at a server and reach the interface.\n", '<');
  }

  /** A version, a digest and image names have no bracket, so every real block can be replaced. */
  lemma PlainInputsAreReplaceable(input: Input)
    requires IsPlain(input)
    ensures Free(Inner(input), End())
  {
    PullLinesArePlain(input);
    DigestLinesArePlain(input);
    UsageLinesArePlain();
    SevenWithout("\n### Container image\n\n```\n", PullLines(input), "```\n\n", DigestLines(input), UsageLines(), "", "", '<');
    assert Inner(input) + "" + "" == Inner(input);
    MarkersAreMarkers();
    NoBracketNoMarker(Inner(input), End());
  }

  lemma NoBracketNoMarker(s: string, t: string)
    requires t != "" && Without(s, t[0])
    ensures Free(s, t)
  {
    forall i | 0 <= i < |s| ensures !StartsWith(s[i..], t) {
      assert |t| <= |s[i..]| ==> s[i..][..|t|][0] == s[i];
    }
  }
}
