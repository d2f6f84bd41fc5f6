/**
 One run of the tagging script while others write to the registries as well: when it reports
 success and what it then reports, where it stops, and what it comes to when nobody interferes.
 */
module ContainerRuns {
  import opened Wrappers
  import opened ContainerTags
  import opened ContainerManifest
  import opened ContainerHistory

  // ---- when a run reports success ---------------------------------------------------------

  /** The registries behind the reading of the first `i` digests, if nothing has stopped the run. */
  function Passed(o: Options, index: seq<Manifest>, others: Others, regs: Registries, i: nat): Registries
    requires i <= |o.images|
  {
    if i == 0 then regs
    else
      var before := others(2 * i - 1, Passed(o, index, others, regs, i - 1));
      others(2 * i, WriteAll(before, RefsOf(o.images[i - 1], o.plan.tags), index))
  }

  /** What registry `i` serves on the version tag when its digest is read. */
  function Shown(o: Options, index: seq<Manifest>, others: Others, regs: Registries, i: nat): Option<Served>
    requires i < |o.images|
  {
    Resolve(Passed(o, index, others, regs, i + 1), Ref(o.images[i], VersionTag(o.version)))
  }

  /** From registry `i` on, each serves what was expected, or what the first of them serves. */
  predicate AllShow(o: Options, index: seq<Manifest>, others: Others, regs: Registries, expected: Option<Served>, i: nat)
    requires i <= |o.images|
  {
    forall k :: i <= k < |o.images| ==>
      && Shown(o, index, others, regs, k).Some?
      && Shown(o, index, others, regs, k) == if expected.Some? then expected else Shown(o, index, others, regs, i)
  }

  /** The loop stands before registry `i`. */
  ghost predicate StandsAt(o: Options, index: seq<Manifest>, others: Others, regs: Registries, budget: nat, c: Creation, i: nat) {
    && i <= |o.images| && c.stop.None? && c.registries == Passed(o, index, others, regs, i)
    && c.writes == |WriteOrder(o.images[..i], o.plan.tags)| <= budget
  }

  lemma NextRound(o: Options, index: seq<Manifest>, others: Others, regs: Registries, budget: nat, c: Creation, i: nat)
    requires StandsAt(o, index, others, regs, budget, c, i) && i < |o.images|
    ensures var d := CreateOne(o, index, others, budget, c, i);
      var shown := Shown(o, index, others, regs, i);
      var writes := |WriteOrder(o.images[..i + 1], o.plan.tags)|;
      if budget < writes then d.stop == Some(Killed)
      else if shown.None? || (c.expected.Some? && shown != c.expected)
      then d.stop == Some(Fatal) && d.registries == Passed(o, index, others, regs, i + 1)
      else StandsAt(o, index, others, regs, budget, d, i + 1) && d.expected == shown
  {
    WriteOrderPrefix(o.images, o.plan.tags, i);
    WholeRound(o, index, others, budget, c, i);
    var refs := RefsOf(o.images[i], o.plan.tags);
    if c.writes + |refs| <= budget {
      DigestRead(o, index, others, regs, Creation(WriteAll(others(2 * i + 1, c.registries), refs, index), c.expected,
                                                  c.writes + |refs|, None), i);
    }
  }

  lemma DigestRead(o: Options, index: seq<Manifest>, others: Others, regs: Registries, c: Creation, i: nat)
    requires i < |o.images|
    requires c.registries == WriteAll(others(2 * i + 1, Passed(o, index, others, regs, i)), RefsOf(o.images[i], o.plan.tags), index)
    ensures var d, shown := ReadDigest(o, others, c, i), Shown(o, index, others, regs, i);
      && d.registries == Passed(o, index, others, regs, i + 1) && d.writes == c.writes
      && if shown.None? || (c.expected.Some? && shown != c.expected) then d.stop == Some(Fatal)
         else d.stop == c.stop && d.expected == shown
  {
  }

  /** A round that lives through its writes goes on to the digest. */
  lemma WholeRound(o: Options, index: seq<Manifest>, others: Others, budget: nat, c: Creation, i: nat)
    requires i < |o.images| && c.writes <= budget
    ensures var refs, d := RefsOf(o.images[i], o.plan.tags), CreateOne(o, index, others, budget, c, i);
      if budget < c.writes + |refs|
      then d == Creation(WriteAll(others(2 * i + 1, c.registries), refs[..budget - c.writes], index), c.expected, budget, Some(Killed))
      else d == ReadDigest(o, others, Creation(WriteAll(others(2 * i + 1, c.registries), refs, index), c.expected,
                                               c.writes + |refs|, None), i)
  {
    var refs := RefsOf(o.images[i], o.plan.tags);
    assert refs[..|refs|] == refs;
  }

  lemma LoopStops(o: Options, index: seq<Manifest>, others: Others, budget: nat, c: Creation, i: nat)
    requires i <= |o.images| && c.writes <= budget && (i == |o.images| || c.stop.Some?)
    ensures CreateFrom(o, index, others, budget, c, i) == c
  {
  }

  lemma LoopGoesOn(o: Options, index: seq<Manifest>, others: Others, budget: nat, c: Creation, i: nat)
    requires i < |o.images| && c.writes <= budget && c.stop.None?
    ensures var d := CreateOne(o, index, others, budget, c, i);
      d.writes <= budget && CreateFrom(o, index, others, budget, c, i) == CreateFrom(o, index, others, budget, d, i + 1)
  {
  }

  lemma {:induction false} ThroughExactly(
    o: Options, index: seq<Manifest>, others: Others, regs: Registries, budget: nat, c: Creation, i: nat)
    requires StandsAt(o, index, others, regs, budget, c, i)
    ensures var d := CreateFrom(o, index, others, budget, c, i);
      && (d.stop.None? <==> |WriteOrder(o.images, o.plan.tags)| <= budget && AllShow(o, index, others, regs, c.expected, i))
      && (d.stop.None? ==>
            && d.registries == Passed(o, index, others, regs, |o.images|)
            && d.expected == if i < |o.images| then Shown(o, index, others, regs, i) else c.expected)
    decreases |o.images| - i
  {
    if i == |o.images| {
      assert o.images[..i] == o.images;
      LoopStops(o, index, others, budget, c, i);
    } else {
      var d := CreateOne(o, index, others, budget, c, i);
      NextRound(o, index, others, regs, budget, c, i);
      WriteOrderPrefix(o.images, o.plan.tags, i);
      LoopGoesOn(o, index, others, budget, c, i);
      if d.stop.None? {
        ThroughExactly(o, index, others, regs, budget, d, i + 1);
        ShownFromNext(o, index, others, regs, c.expected, i);
      } else {
        LoopStops(o, index, others, budget, d, i + 1);
      }
    }
  }

  lemma ShownFromNext(o: Options, index: seq<Manifest>, others: Others, regs: Registries, expected: Option<Served>, i: nat)
    requires i < |o.images|
    requires var shown := Shown(o, index, others, regs, i); shown.Some? && (expected.Some? ==> shown == expected)
    ensures AllShow(o, index, others, regs, expected, i)
       <==> AllShow(o, index, others, regs, Shown(o, index, others, regs, i), i + 1)
  {
  }

  /** The registries at the three closing checks. */
  function AtCheck(o: Options, index: seq<Manifest>, others: Others, regs: Registries, check: nat): Registries
    decreases check
  {
    if check == 0 then Passed(o, index, others, regs, |o.images|)
    else others(2 * |o.images| + check, AtCheck(o, index, others, regs, check - 1))
  }

  /**
   Whatever others write in between: a run ends in success with `served` if and only if it survives
   every write, each registry served exactly that behind its create, it is the index adopted if one
   was, and the three closing checks pass.
   */
  lemma SucceedsExactly(
    store: Store, o: Options, index: seq<Manifest>, expected: Option<Served>, regs: Registries, others: Others, budget: nat,
    served: Served)
    requires |o.images| > 0
    ensures Published(store, o, index, expected, regs, others, budget).outcome == Done(served) <==>
      && |WriteOrder(o.images, o.plan.tags)| <= budget
      && (forall k :: 0 <= k < |o.images| ==> Shown(o, index, others, regs, k) == Some(served))
      && (expected.Some? ==> expected == Some(served))
      && PassesChecks(store, o, served, regs, AtCheck(o, index, others, regs, 1), AtCheck(o, index, others, regs, 2),
                      AtCheck(o, index, others, regs, 3))
  {
    var start := Creation(regs, expected, 0, None);
    assert o.images[..0] == [];
    ThroughExactly(o, index, others, regs, budget, start, 0);
    var c := CreateFrom(o, index, others, budget, start, 0);
    if c.stop.None? {
      ClosedExactly(store, o, c.expected.value, regs, others, c.registries, served);
      ChecksAre(o, index, others, regs);
    }
  }

  lemma ChecksAre(o: Options, index: seq<Manifest>, others: Others, regs: Registries)
    ensures var n, end := 2 * |o.images|, Passed(o, index, others, regs, |o.images|);
      && AtCheck(o, index, others, regs, 1) == others(n + 1, end)
      && AtCheck(o, index, others, regs, 2) == others(n + 2, others(n + 1, end))
      && AtCheck(o, index, others, regs, 3) == others(n + 3, others(n + 2, others(n + 1, end)))
  {
    assert AtCheck(o, index, others, regs, 0) == Passed(o, index, others, regs, |o.images|);
  }

  lemma ClosedExactly(
    store: Store, o: Options, index: Served, was: Registries, others: Others, regs: Registries, served: Served)
    requires |o.images| > 0
    ensures var n := 2 * |o.images|;
      var fifth := others(n + 1, regs);
      var sixth := others(n + 2, fifth);
      Closed(store, o, index, was, others, regs).outcome == Done(served) <==>
        index == served && PassesChecks(store, o, served, was, fifth, sixth, others(n + 3, sixth))
  {
  }

  /** What a successful run reports is the adopted index, or what the first registry served behind its create. */
  lemma FirstRegistryDecides(
    store: Store, o: Options, index: seq<Manifest>, expected: Option<Served>, regs: Registries, others: Others, budget: nat)
    requires |o.images| > 0
    requires Published(store, o, index, expected, regs, others, budget).outcome.Done?
    ensures var served := Published(store, o, index, expected, regs, others, budget).outcome.index;
      if expected.Some? then Some(served) == expected else Some(served) == Shown(o, index, others, regs, 0)
  {
    SucceedsExactly(store, o, index, expected, regs, others, budget,
                    Published(store, o, index, expected, regs, others, budget).outcome.index);
  }

  // ---- where it stops -----------------------------------------------------------------------------

  /** The first registry that serves something else behind its create ends the run; no later one is written. */
  lemma DisagreementStops(
    store: Store, o: Options, index: seq<Manifest>, expected: Option<Served>, regs: Registries, others: Others, budget: nat,
    j: nat)
    requires j < |o.images| && |WriteOrder(o.images[..j + 1], o.plan.tags)| <= budget
    requires FirstOut(o, index, others, regs, expected, 0, j)
    ensures Published(store, o, index, expected, regs, others, budget)
         == Ended(Passed(o, index, others, regs, j + 1), Fatal)
  {
    var start := Creation(regs, expected, 0, None);
    assert o.images[..0] == [];
    StopsAt(o, index, others, regs, budget, start, 0, j);
  }

  /** The registries from `i` on agree up to `j`, which does not. */
  predicate FirstOut(
    o: Options, index: seq<Manifest>, others: Others, regs: Registries, expected: Option<Served>, i: nat, j: nat)
    requires i <= j < |o.images|
  {
    && (forall k :: i <= k < j ==>
          && Shown(o, index, others, regs, k).Some?
          && Shown(o, index, others, regs, k) == if expected.Some? then expected else Shown(o, index, others, regs, i))
    && var shown := Shown(o, index, others, regs, j);
       || shown.None? || (expected.Some? && shown != expected)
       || (expected.None? && shown != Shown(o, index, others, regs, i))
  }

  lemma OutFromNext(
    o: Options, index: seq<Manifest>, others: Others, regs: Registries, expected: Option<Served>, i: nat, j: nat)
    requires i < j < |o.images| && FirstOut(o, index, others, regs, expected, i, j)
    ensures Shown(o, index, others, regs, i).Some?
    ensures expected.Some? ==> Shown(o, index, others, regs, i) == expected
    ensures FirstOut(o, index, others, regs, Shown(o, index, others, regs, i), i + 1, j)
  {
  }

  lemma RoundOut(o: Options, index: seq<Manifest>, others: Others, regs: Registries, budget: nat, c: Creation, j: nat)
    requires StandsAt(o, index, others, regs, budget, c, j) && j < |o.images|
    requires |WriteOrder(o.images[..j + 1], o.plan.tags)| <= budget && FirstOut(o, index, others, regs, c.expected, j, j)
    ensures var d := CreateOne(o, index, others, budget, c, j);
      d.stop == Some(Fatal) && d.registries == Passed(o, index, others, regs, j + 1)
  {
    NextRound(o, index, others, regs, budget, c, j);
  }

  lemma RoundBeforeOut(
    o: Options, index: seq<Manifest>, others: Others, regs: Registries, budget: nat, c: Creation, i: nat, j: nat)
    requires StandsAt(o, index, others, regs, budget, c, i) && i < j < |o.images|
    requires |WriteOrder(o.images[..i + 1], o.plan.tags)| <= budget && FirstOut(o, index, others, regs, c.expected, i, j)
    ensures var d := CreateOne(o, index, others, budget, c, i);
      StandsAt(o, index, others, regs, budget, d, i + 1) && FirstOut(o, index, others, regs, d.expected, i + 1, j)
  {
    NextRound(o, index, others, regs, budget, c, i);
    OutFromNext(o, index, others, regs, c.expected, i, j);
  }

  lemma {:induction false} StopsAt(
    o: Options, index: seq<Manifest>, others: Others, regs: Registries, budget: nat, c: Creation, i: nat, j: nat)
    requires StandsAt(o, index, others, regs, budget, c, i) && i <= j < |o.images|
    requires |WriteOrder(o.images[..j + 1], o.plan.tags)| <= budget && FirstOut(o, index, others, regs, c.expected, i, j)
    ensures var d := CreateFrom(o, index, others, budget, c, i);
      d.stop == Some(Fatal) && d.registries == Passed(o, index, others, regs, j + 1)
    decreases j - i
  {
    var d := CreateOne(o, index, others, budget, c, i);
    LoopGoesOn(o, index, others, budget, c, i);
    if i < j {
      WritesGrow(o.images, o.plan.tags, i + 1, j + 1);
      RoundBeforeOut(o, index, others, regs, budget, c, i, j);
      StopsAt(o, index, others, regs, budget, d, i + 1, j);
    } else {
      RoundOut(o, index, others, regs, budget, c, j);
      LoopStops(o, index, others, budget, d, i + 1);
    }
  }

  lemma WritesGrow(images: seq<string>, tags: seq<Tag>, i: nat, j: nat)
    requires 0 < i <= j <= |images|
    ensures |WriteOrder(images[..i], tags)| <= |WriteOrder(images[..j], tags)|
  {
    assert images[..j][..i] == images[..i];
    WriteOrderPrefix(images[..j], tags, i - 1);
  }

  // ---- when nobody interferes ----------------------------------------------------------------------

  /** Nobody else writes before the closing checks. */
  ghost predicate Quiet(others: Others, o: Options) {
    forall k: nat, regs :: 0 < k <= 2 * |o.images| ==> others(k, regs) == regs
  }

  /** The index is the one expected, if one is. */
  predicate Expects(c: Creation, index: seq<Manifest>) {
    c.expected.Some? ==> c.expected == Some(Index(index))
  }

  lemma {:induction false} QuietCreates(
    o: Options, index: seq<Manifest>, others: Others, regs: Registries, budget: nat, c: Creation, i: nat)
    requires ValidOptions(o) && Quiet(others, o) && i <= |o.images| && c.stop.None? && Expects(c, index)
    requires var done := WriteOrder(o.images[..i], o.plan.tags);
      c.registries == WriteAll(regs, done, index) && c.writes == |done| <= budget
    ensures var refs, d := WriteOrder(o.images, o.plan.tags), CreateFrom(o, index, others, budget, c, i);
      if budget < |refs| then d.stop == Some(Killed) && d.registries == WriteAll(regs, refs[..budget], index)
      else d.stop.None? && d.registries == WriteAll(regs, refs, index)
           && d.expected == if i < |o.images| then Some(Index(index)) else c.expected
    decreases |o.images| - i
  {
    if i == |o.images| {
      assert o.images[..i] == o.images;
      LoopStops(o, index, others, budget, c, i);
    } else {
      var d := CreateOne(o, index, others, budget, c, i);
      QuietRound(o, index, others, regs, budget, c, i);
      LoopGoesOn(o, index, others, budget, c, i);
      if d.stop.None? {
        QuietCreates(o, index, others, regs, budget, d, i + 1);
      } else {
        LoopStops(o, index, others, budget, d, i + 1);
      }
    }
  }

  lemma QuietRound(o: Options, index: seq<Manifest>, others: Others, regs: Registries, budget: nat, c: Creation, i: nat)
    requires ValidOptions(o) && Quiet(others, o) && i < |o.images| && c.stop.None? && Expects(c, index)
    requires var done := WriteOrder(o.images[..i], o.plan.tags);
      c.registries == WriteAll(regs, done, index) && c.writes == |done| <= budget
    ensures var refs, done := WriteOrder(o.images, o.plan.tags), WriteOrder(o.images[..i + 1], o.plan.tags);
      var d := CreateOne(o, index, others, budget, c, i);
      && |done| <= |refs|
      && if budget < |done| then d.stop == Some(Killed) && d.registries == WriteAll(regs, refs[..budget], index)
         else d == Creation(WriteAll(regs, done, index), Some(Index(index)), |done|, None)
  {
    assert others(2 * i + 1, c.registries) == c.registries;
    WriteOrderPrefix(o.images, o.plan.tags, i);
    RoundWrites(o, index, others, regs, budget, c, i, WriteOrder(o.images, o.plan.tags), WriteOrder(o.images[..i], o.plan.tags));
    var done := WriteOrder(o.images[..i + 1], o.plan.tags);
    if |done| <= budget {
      QuietDigest(o, index, others, regs, Creation(WriteAll(regs, done, index), c.expected, |done|, None), i);
    }
  }

  /** A round that nobody else writes before, in terms of all the writes. */
  lemma RoundWrites(o: Options, index: seq<Manifest>, others: Others, regs: Registries, budget: nat, c: Creation, i: nat,
                    all: seq<Ref>, before: seq<Ref>)
    requires i < |o.images| && others(2 * i + 1, c.registries) == c.registries
    requires before + RefsOf(o.images[i], o.plan.tags) <= all
    requires c.registries == WriteAll(regs, before, index) && c.writes == |before| <= budget
    ensures var done := before + RefsOf(o.images[i], o.plan.tags);
      CreateOne(o, index, others, budget, c, i)
      == if budget < |done| then Creation(WriteAll(regs, all[..budget], index), c.expected, budget, Some(Killed))
         else ReadDigest(o, others, Creation(WriteAll(regs, done, index), c.expected, |done|, None), i)
  {
    var next := RefsOf(o.images[i], o.plan.tags);
    WholeRound(o, index, others, budget, c, i);
    if budget < |before| + |next| {
      WriteAllMore(regs, all, before, next, budget - |before|, index);
    } else {
      WriteAllConcat(regs, before, next, index);
    }
  }

  lemma QuietDigest(o: Options, index: seq<Manifest>, others: Others, regs: Registries, c: Creation, i: nat)
    requires ValidOptions(o) && Quiet(others, o) && i < |o.images| && Expects(c, index)
    requires c.registries == WriteAll(regs, WriteOrder(o.images[..i + 1], o.plan.tags), index)
    ensures ReadDigest(o, others, c, i) == c.(expected := Some(Index(index)))
  {
    var done, tag := WriteOrder(o.images[..i + 1], o.plan.tags), Ref(o.images[i], VersionTag(o.version));
    WriteOrderIsPlanned(o.images[..i + 1], o.plan.tags);
    assert o.images[..i + 1][i] == o.images[i] && o.plan.tags[0] == VersionTag(o.version);
    assert tag in SetOf(done);
    WriteAllIsWritten(regs, done, index);
    assert others(2 * i + 2, c.registries) == c.registries;
  }

  /** With others quiet until the checks: a prefix of the writes for a run that dies, all of them and the checks for any other. */
  lemma QuietRunEnds(
    store: Store, o: Options, index: seq<Manifest>, expected: Option<Served>, regs: Registries, others: Others, budget: nat)
    requires ValidOptions(o) && Quiet(others, o) && (expected.Some? ==> expected == Some(Index(index)))
    ensures var refs := WriteOrder(o.images, o.plan.tags);
      Published(store, o, index, expected, regs, others, budget)
      == if budget < |refs| then Ended(WriteAll(regs, refs[..budget], index), Killed)
         else Closed(store, o, Index(index), regs, others, WriteAll(regs, refs, index))
  {
    var start := Creation(regs, expected, 0, None);
    assert o.images[..0] == [];
    QuietCreates(o, index, others, regs, budget, start, 0);
  }

  /** Nobody else writes at all. */
  ghost predicate Silent(others: Others) {
    forall k: nat, regs :: others(k, regs) == regs
  }

  lemma AdoptedIsChosen(store: Store, regs: Registries, o: Options)
    requires ChooseIndex(store, regs, o).Ok? && Adopted(store, regs, o).Some?
    ensures Adopted(store, regs, o) == Some(Index(ChooseIndex(store, regs, o).value))
  {
  }

  /**
   A run on its own is an effect of the histories: it writes a prefix of its references, and it ends
   in success if and only if it lives through all of them and its index carries both platforms, which
   only a first publish of a build without one of them does not.
   */
  lemma SilentRunIsEffect(store: Store, o: Options, regs: Registries, others: Others, budget: nat)
    requires ValidOptions(o) && Silent(others) && ChooseIndex(store, regs, o).Ok?
    ensures var refs, index := WriteOrder(o.images, o.plan.tags), Index(ChooseIndex(store, regs, o).value);
      var e := Effect(o, SetOf(refs[..Smaller(budget, |refs|)]));
      var end := Performed(store, o, regs, others, budget);
      && Legal(e) && end.registries == Step(store, regs, e)
      && (end.outcome == Done(index) <==> |refs| <= budget && CarriesBoth(store, Some(index)))
      && (SurveyAll(store, regs, o.images, o.version).value != [] ==> CarriesBoth(store, Some(index)))
  {
    var refs, index := WriteOrder(o.images, o.plan.tags), ChooseIndex(store, regs, o).value;
    if Adopted(store, regs, o).Some? {
      AdoptedIsChosen(store, regs, o);
    }
    QuietRunEnds(store, o, index, Adopted(store, regs, o), others(0, regs), others, budget);
    CrashIsEffect(store, regs, o, Smaller(budget, |refs|));
    if SurveyAll(store, regs, o.images, o.version).value != [] {
      ChosenCarriesBoth(store, regs, o);
    }
    if |refs| <= budget {
      assert refs[..|refs|] == refs;
      WriteOrderIsPlanned(o.images, o.plan.tags);
      var e := Effect(o, SetOf(refs));
      CompleteRunPasses(store, regs, e);
      ClosedInSilence(store, o, Index(index), regs, others, Step(store, regs, e));
    }
  }

  lemma ClosedInSilence(store: Store, o: Options, index: Served, was: Registries, others: Others, regs: Registries)
    requires |o.images| > 0 && Silent(others)
    ensures Closed(store, o, index, was, others, regs)
         == Ended(regs, if PassesChecks(store, o, index, was, regs, regs, regs) then Done(index) else Fatal)
  {
  }

  /** After any number of killed runs of the release, one on its own that lives through its writes ends in success. */
  lemma RepairEndsInSuccess(
    store: Store, regs: Registries, es: seq<Effect>, o: Options, images: set<string>, v: Version, revision: string,
    others: Others, budget: nat)
    requires forall e :: e in es ==> ProperRun(store, e, images, v, revision)
    requires Settled(store, regs, images, v, revision) && ProperRun(store, Effect(o, {}), images, v, revision)
    requires Silent(others) && |WriteOrder(o.images, o.plan.tags)| <= budget
    ensures var before := History(store, regs, es);
      && ChooseIndex(store, before, o).Ok?
      && Performed(store, o, before, others, budget).outcome == Done(Index(ChooseIndex(store, before, o).value))
  {
    var before := History(store, regs, es);
    IndexIsStable(store, regs, es, images, v, revision);
    ProperRunDecides(store, before, Effect(o, {}), images, v, revision);
    ProperBuildCarriesBoth(store, ChooseIndex(store, before, o).value, v, revision);
    SilentRunIsEffect(store, o, before, others, budget);
  }

  // ---- an index nobody published here ----------------------------------------------------------------------

  /** Everything planned for registry `image` put on another index. */
  function Overwritten(o: Options, image: string, regs: Registries, foreign: Served): Registries {
    regs + map t | t in SetOf(o.plan.tags) :: Ref(image, t) := foreign
  }

  /**
   With one registry and nothing to adopt, the digest to compare with is read from that registry
   itself: whoever moves its tags between the create and that reading has the run report their index.
   */
  lemma FirstRegistryIsBelieved(
    store: Store, o: Options, index: seq<Manifest>, regs: Registries, others: Others, budget: nat, foreign: Served)
    requires ValidOptions(o) && |o.images| == 1 && |o.plan.tags| <= budget && CarriesBoth(store, Some(foreign))
    requires WriteOnlyThen(o, others, foreign)
    ensures Published(store, o, index, None, regs, others, budget).outcome == Done(foreign)
  {
    var wrote := WriteAll(regs, RefsOf(o.images[0], o.plan.tags), index);
    OneRegistry(o);
    assert |WriteOrder(o.images, o.plan.tags)| == |o.plan.tags|;
    OverwrittenServes(o, o.images[0], wrote, foreign);
    OnlyThen(o, index, regs, others, foreign);
    NoneIsMoved(o, regs, index, foreign);
    BelievedAtTheEnd(store, o, index, regs, others, budget, foreign, Overwritten(o, o.images[0], wrote, foreign));
  }

  lemma BelievedAtTheEnd(
    store: Store, o: Options, index: seq<Manifest>, regs: Registries, others: Others, budget: nat, foreign: Served,
    end: Registries)
    requires |o.images| == 1 && |WriteOrder(o.images, o.plan.tags)| <= budget && CarriesBoth(store, Some(foreign))
    requires Passed(o, index, others, regs, 1) == end && Resolve(end, FirstTag(o)) == Some(foreign)
    requires AtCheck(o, index, others, regs, 1) == end && AtCheck(o, index, others, regs, 2) == end
    requires AtCheck(o, index, others, regs, 3) == end && AllServe(o, foreign, end) && NoneMoved(o, regs, end)
    ensures Published(store, o, index, None, regs, others, budget).outcome == Done(foreign)
  {
    assert Shown(o, index, others, regs, 0) == Some(foreign);
    SucceedsExactly(store, o, index, None, regs, others, budget, foreign);
  }

  /** Others write at the one moment between the create and the reading of its digest. */
  ghost predicate WriteOnlyThen(o: Options, others: Others, foreign: Served)
    requires |o.images| > 0
  {
    forall k: nat, now :: others(k, now) == if k == 2 then Overwritten(o, o.images[0], now, foreign) else now
  }

  lemma OnlyThen(o: Options, index: seq<Manifest>, regs: Registries, others: Others, foreign: Served)
    requires |o.images| == 1 && WriteOnlyThen(o, others, foreign)
    ensures var end := Overwritten(o, o.images[0], WriteAll(regs, RefsOf(o.images[0], o.plan.tags), index), foreign);
      && Passed(o, index, others, regs, 1) == end
      && AtCheck(o, index, others, regs, 1) == end && AtCheck(o, index, others, regs, 2) == end
      && AtCheck(o, index, others, regs, 3) == end
  {
    var end := Overwritten(o, o.images[0], WriteAll(regs, RefsOf(o.images[0], o.plan.tags), index), foreign);
    var first := Passed(o, index, others, regs, 0);
    assert others(1, first) == regs;
    assert Passed(o, index, others, regs, 1) == others(2, WriteAll(others(1, first), RefsOf(o.images[0], o.plan.tags), index));
    assert others(3, end) == end && others(4, end) == end && others(5, end) == end;
    ChecksAre(o, index, others, regs);
  }

  lemma OneRegistry(o: Options)
    requires |o.images| == 1
    ensures WriteOrder(o.images, o.plan.tags) == RefsOf(o.images[0], o.plan.tags)
  {
    assert o.images[..0] == [];
    assert WriteOrder([], o.plan.tags) + RefsOf(o.images[0], o.plan.tags) == RefsOf(o.images[0], o.plan.tags);
  }

  lemma OverwrittenServes(o: Options, image: string, regs: Registries, foreign: Served)
    requires ValidOptions(o) && |o.images| == 1 && o.images[0] == image
    ensures AllServe(o, foreign, Overwritten(o, image, regs, foreign))
    ensures Resolve(Overwritten(o, image, regs, foreign), FirstTag(o)) == Some(foreign)
  {
    assert o.plan.tags[0] == VersionTag(o.version) && VersionTag(o.version) in SetOf(o.plan.tags);
  }

  lemma NoneIsMoved(o: Options, regs: Registries, index: seq<Manifest>, foreign: Served)
    requires ValidOptions(o) && |o.images| == 1
    ensures NoneMoved(o, regs, Overwritten(o, o.images[0], WriteAll(regs, RefsOf(o.images[0], o.plan.tags), index), foreign))
  {
    var image, next := o.images[0], RefsOf(o.images[0], o.plan.tags);
    WriteAllIsWritten(regs, next, index);
    WriteOrderIsPlanned(o.images, o.plan.mustNotMove);
    forall r: Ref | r in SetOf(WriteOrder(o.images, o.plan.mustNotMove)) ensures r.tag !in o.plan.tags {
      NotPlannedTag(o.plan, o.version, r.tag);
    }
  }

  lemma NotPlannedTag(plan: TagPlan, v: Version, t: Tag)
    requires Partitions(plan, v) && t in plan.mustNotMove
    ensures t !in plan.tags
  {
    MustNotMoveIsFloating(plan, v, t);
    if t in plan.tags[1..] {
      WrittenTagIsFloating(plan, v, t);
    }
    assert plan.tags == [plan.tags[0]] + plan.tags[1..];
  }
}
