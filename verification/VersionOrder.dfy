/**
 Where the two version orders agree, and what follows for releases that only move forwards.
 */
module VersionOrder {
  import opened Wrappers
  import opened Text
  import opened Versions

  function Sign(n: int): int {
    if n < 0 then -1 else if n > 0 then 1 else 0
  }

  function PreOf(v: ParsedVersion): Option<string> {
    if v.prerelease.None? then None else Some("rc." + Numeral(v.prerelease.value))
  }

  lemma NumeralIsPlain(n: nat)
    ensures Without(Numeral(n), '-') && Without(Numeral(n), '.') && Numeral(n)[0] != 'v'
    ensures ParseIntOrZero(Numeral(n)) == n
  {
    var s := Numeral(n);
    assert !IsSpace(s[0]) && s[0] != '-' && s[0] != '+';
    DigitsStopAtEnd(s);
    NumeralValue(n);
  }

  lemma SplitThree(a: string, b: string, c: string)
    requires Without(a, '.') && Without(b, '.') && Without(c, '.')
    ensures Split(a + "." + b + "." + c, '.') == [a, b, c]
  {
    var tail := b + ['.'] + c;
    assert a + "." + b + "." + c == a + ['.'] + tail;
    SplitOnce(a, '.', tail);
    SplitOnce(b, '.', c);
    SplitOnce(c, '.', "");
  }

  lemma SplitCore(v: ParsedVersion)
    ensures Without(Core(v), '-') && Core(v) != "" && Core(v)[0] != 'v'
    ensures Split(Core(v), '.') == [Numeral(v.major), Numeral(v.minor), Numeral(v.patch)]
  {
    NumeralIsPlain(v.major);
    NumeralIsPlain(v.minor);
    NumeralIsPlain(v.patch);
    SplitThree(Numeral(v.major), Numeral(v.minor), Numeral(v.patch));
    assert Without(".", '-');
  }

  lemma SplitWithoutPre(core: string, fields: seq<string>)
    requires Without(core, '-') && core != "" && core[0] != 'v' && Split(core, '.') == fields
    ensures SplitParts(core) == SplitVersion(fields, None)
  {
    SplitOnce(core, '-', "");
  }

  lemma SplitShown(v: ParsedVersion)
    ensures SplitParts(Show(v)) == SplitVersion([Numeral(v.major), Numeral(v.minor), Numeral(v.patch)], PreOf(v))
  {
    var fields := [Numeral(v.major), Numeral(v.minor), Numeral(v.patch)];
    SplitCore(v);
    if v.prerelease.None? {
      assert Show(v) == Core(v);
      SplitWithoutPre(Core(v), fields);
    } else {
      var pre := PreOf(v).value;
      NumeralIsPlain(v.prerelease.value);
      assert Without(pre, '-');
      assert Show(v) == Core(v) + "-" + pre;
      SplitWithPre(Core(v), fields, pre);
    }
  }

  lemma SplitPre(n: nat)
    ensures Split("rc." + Numeral(n), '.') == ["rc", Numeral(n)]
  {
    NumeralIsPlain(n);
    assert "rc." + Numeral(n) == "rc" + ['.'] + Numeral(n);
    SplitOnce("rc", '.', Numeral(n));
    SplitOnce(Numeral(n), '.', "");
  }

  lemma CandidatesCompare(m: nat, n: nat)
    ensures m != n ==> ("rc." + Numeral(m)) != ("rc." + Numeral(n))
    ensures ComparePre(Split("rc." + Numeral(m), '.'), Split("rc." + Numeral(n), '.'), 0) == Sign(m - n)
  {
    SplitPre(m);
    SplitPre(n);
    NumeralIsInjective(m, n);
    NumeralValue(m);
    NumeralValue(n);
    if m != n {
      assert ["rc", Numeral(m)][1] != ["rc", Numeral(n)][1];
    }
    var a, b := ["rc", Numeral(m)], ["rc", Numeral(n)];
    assert ComparePre(a, b, 0) == ComparePre(a, b, 1);
    assert m == n ==> ComparePre(a, b, 1) == ComparePre(a, b, 2);
  }

  lemma CoresCompare(v: ParsedVersion, w: ParsedVersion)
    ensures CompareCore(SplitParts(Show(v)).core, SplitParts(Show(w)).core, 0)
         == if v.major != w.major then Sign(v.major - w.major)
            else if v.minor != w.minor then Sign(v.minor - w.minor)
            else Sign(v.patch - w.patch)
  {
    SplitShown(v);
    SplitShown(w);
    NumeralIsPlain(v.major);
    NumeralIsPlain(v.minor);
    NumeralIsPlain(v.patch);
    NumeralIsPlain(w.major);
    NumeralIsPlain(w.minor);
    NumeralIsPlain(w.patch);
    ThreeFieldsCompare(SplitParts(Show(v)).core, SplitParts(Show(w)).core);
  }

  lemma ThreeFieldsCompare(a: seq<string>, b: seq<string>)
    requires |a| == |b| == 3
    ensures CompareCore(a, b, 0)
         == if ParseIntOrZero(a[0]) != ParseIntOrZero(b[0]) then Sign(ParseIntOrZero(a[0]) - ParseIntOrZero(b[0]))
            else if ParseIntOrZero(a[1]) != ParseIntOrZero(b[1]) then Sign(ParseIntOrZero(a[1]) - ParseIntOrZero(b[1]))
            else Sign(ParseIntOrZero(a[2]) - ParseIntOrZero(b[2]))
  {
    assert CompareCore(a, b, 3) == 0;
    assert CompareCore(a, b, 2) == Sign(CoreAt(a, 2) - CoreAt(b, 2));
    assert CoreAt(a, 1) == CoreAt(b, 1) ==> CompareCore(a, b, 1) == CompareCore(a, b, 2);
  }

  /** The two comparisons agree in sign on every pair of releases. */
  lemma OrdersAgree(v: ParsedVersion, w: ParsedVersion)
    ensures ChannelOrder(Show(v), Show(w)) == Sign(CompareParsed(v, w))
  {
    CoresCompare(v, w);
    SplitShown(v);
    SplitShown(w);
    if SameCores(v, w) {
      PreleasesCompare(v, w);
    }
  }

  predicate SameCores(v: ParsedVersion, w: ParsedVersion) {
    v.major == w.major && v.minor == w.minor && v.patch == w.patch
  }

  lemma PreleasesCompare(v: ParsedVersion, w: ParsedVersion)
    requires SameCores(v, w)
    ensures v.prerelease.Some? && w.prerelease.Some? ==>
      && ComparePre(Split(PreOf(v).value, '.'), Split(PreOf(w).value, '.'), 0) == Sign(CompareParsed(v, w))
      && (PreOf(v) == PreOf(w) ==> CompareParsed(v, w) == 0)
  {
    if v.prerelease.Some? && w.prerelease.Some? {
      CandidatesCompare(v.prerelease.value, w.prerelease.value);
    }
  }

  /** A leading `v` is not looked at. */
  lemma LeadingVIsDropped(s: string)
    requires s != "" && s[0] != 'v'
    ensures SplitParts("v" + s) == SplitParts(s)
  {
    assert ("v" + s)[1..] == s;
  }

  /** The two agree on whatever both of them accept. */
  lemma ParsedVersionsAgree(a: string, b: string)
    ensures CompareVersions(a, b).Ok? <==> ParseVersion(a).Ok? && ParseVersion(b).Ok?
    ensures CompareVersions(a, b).Ok? ==> Sign(CompareVersions(a, b).value) == ChannelOrder(a, b)
  {
    if CompareVersions(a, b).Ok? {
      ParseAcceptsOnlyShown(a);
      ParseAcceptsOnlyShown(b);
      OrdersAgree(ParseVersion(a).value, ParseVersion(b).value);
    }
  }

  // ---- a strict total order --------------------------------------------------------------

  /** The precedence of section 11 of SemVer 2.0.0 on releases: a candidate precedes its stable release. */
  predicate Precedes(v: ParsedVersion, w: ParsedVersion) {
    || v.major < w.major
    || (v.major == w.major && (
          || v.minor < w.minor
          || (v.minor == w.minor && (
                || v.patch < w.patch
                || (v.patch == w.patch && v.prerelease.Some? && (
                      w.prerelease.None? || v.prerelease.value < w.prerelease.value))))))
  }

  lemma ComparisonIsPrecedence(v: ParsedVersion, w: ParsedVersion)
    ensures CompareParsed(v, w) < 0 <==> Precedes(v, w)
    ensures CompareParsed(v, w) > 0 <==> Precedes(w, v)
    ensures CompareParsed(v, w) == 0 <==> v == w
  {
  }

  lemma PrecedenceIsStrictAndTotal(u: ParsedVersion, v: ParsedVersion, w: ParsedVersion)
    ensures !Precedes(v, v)
    ensures Precedes(u, v) && Precedes(v, w) ==> Precedes(u, w)
    ensures Precedes(v, w) || v == w || Precedes(w, v)
    ensures v.prerelease.Some? ==> Precedes(v, v.(prerelease := None))
  {
  }

  /** On the versions `parseVersion` accepts, the channel order is a strict total order. */
  lemma ChannelOrderIsTotal(a: string, b: string, c: string)
    requires IsReleaseVersion(a) && IsReleaseVersion(b) && IsReleaseVersion(c)
    ensures ChannelOrder(a, b) == -ChannelOrder(b, a)
    ensures ChannelOrder(a, b) == 0 <==> a == b
    ensures ChannelOrder(a, b) <= 0 && ChannelOrder(b, c) <= 0 ==> ChannelOrder(a, c) <= 0
    ensures ChannelOrder(a, b) < 0 && ChannelOrder(b, c) <= 0 ==> ChannelOrder(a, c) < 0
    ensures ChannelOrder(a, b) <= 0 && ChannelOrder(b, c) < 0 ==> ChannelOrder(a, c) < 0
  {
    var u :| IsRelease(u) && a == Show(u);
    var v :| IsRelease(v) && b == Show(v);
    var w :| IsRelease(w) && c == Show(w);
    OrdersAgree(u, v);
    OrdersAgree(v, u);
    OrdersAgree(v, w);
    OrdersAgree(u, w);
    ComparisonIsPrecedence(u, v);
    ComparisonIsPrecedence(v, w);
    ComparisonIsPrecedence(u, w);
    PrecedenceIsStrictAndTotal(u, v, w);
  }

  lemma CandidateBelowStable(core: ParsedVersion, n: nat)
    requires core.prerelease.None?
    ensures ChannelOrder(Show(core.(prerelease := Some(n))), Show(core)) == -1
  {
    OrdersAgree(core.(prerelease := Some(n)), core);
  }

  /** Every version string compares equal to itself. */
  lemma ChannelOrderIsReflexive(s: string)
    ensures ChannelOrder(s, s) == 0
  {
    var core := SplitParts(s).core;
    CoreEqualsItself(core, 0);
  }

  lemma {:induction false} CoreEqualsItself(core: seq<string>, i: nat)
    ensures CompareCore(core, core, i) == 0
    decreases |core| - i
  {
    if i < |core| {
      CoreEqualsItself(core, i + 1);
    }
  }

  // ---- chains of bumps -----------------------------------------------------------------------

  predicate IsBumpChain(versions: seq<string>) {
    forall i :: 0 < i < |versions| ==> AssertForwardBump(versions[i - 1], versions[i]).Ok?
  }

  lemma BumpMovesForward(current: string, candidate: string)
    ensures AssertForwardBump(current, candidate).Ok? <==> Earlier(current, candidate)
  {
    ParseAcceptsExactly(current);
    ParseAcceptsExactly(candidate);
    ParsedVersionsAgree(candidate, current);
    if IsReleaseVersion(current) && IsReleaseVersion(candidate) {
      ChannelOrderIsTotal(current, candidate, candidate);
    }
  }

  /** Two releases, the first below the second. */
  ghost predicate Earlier(a: string, b: string) {
    IsReleaseVersion(a) && IsReleaseVersion(b) && ChannelOrder(a, b) < 0
  }

  lemma EarlierIsTransitive(a: string, b: string, c: string)
    requires Earlier(a, b) && Earlier(b, c)
    ensures Earlier(a, c)
  {
    ChannelOrderIsTotal(a, b, c);
  }

  lemma {:induction false} ChainsAreOrdered(before: (string, string) -> bool, s: seq<string>, i: nat, j: nat)
    requires forall a, b, c :: before(a, b) && before(b, c) ==> before(a, c)
    requires forall k :: 0 < k < |s| ==> before(s[k - 1], s[k])
    requires i < j < |s|
    ensures before(s[i], s[j])
    decreases j - i
  {
    if i + 1 < j {
      ChainsAreOrdered(before, s, i, j - 1);
      assert before(s[j - 1], s[j]);
    }
  }

  /** However long the history, no version in it is repeated or undercut. */
  lemma BumpsOnlyMoveForward(versions: seq<string>, i: nat, j: nat)
    requires IsBumpChain(versions) && i < j < |versions|
    ensures Earlier(versions[i], versions[j])
  {
    var before := (a, b) => Earlier(a, b);
    forall a, b, c | before(a, b) && before(b, c) ensures before(a, c) {
      EarlierIsTransitive(a, b, c);
    }
    forall k | 0 < k < |versions| ensures before(versions[k - 1], versions[k]) {
      BumpMovesForward(versions[k - 1], versions[k]);
    }
    ChainsAreOrdered(before, versions, i, j);
  }

  // ---- outside the domain ------------------------------------------------------------------

  lemma SplitWithPre(core: string, fields: seq<string>, pre: string)
    requires Without(core, '-') && core != "" && core[0] != 'v' && Split(core, '.') == fields
    requires Without(pre, '-')
    ensures SplitParts(core + "-" + pre) == SplitVersion(fields, Some(pre))
  {
    assert core + "-" + pre == core + ['-'] + pre;
    SplitOnce(core, '-', pre);
    SplitOnce(pre, '-', "");
  }

  lemma OneZeroZero()
    ensures Without("1.0.0", '-') && "1.0.0"[0] != 'v'
    ensures Split("1.0.0", '.') == ["1", "0", "0"]
  {
    SplitThree("1", "0", "0");
    assert "1" + "." + "0" + "." + "0" == "1.0.0";
  }

  /** One dot-free identifier on each side. */
  lemma OneOnOne(x: string, y: string)
    requires Without(x, '.') && Without(y, '.')
    ensures x != y ==> ComparePre(Split(x, '.'), Split(y, '.'), 0) == CompareIdentifiers(x, y)
  {
    SplitOnce(x, '.', "");
    SplitOnce(y, '.', "");
  }

  /** Two version strings that differ only in one dot-free prerelease identifier. */
  lemma IdentifierDecides(x: string, y: string)
    requires Without(x, '-') && Without(x, '.') && Without(y, '-') && Without(y, '.')
    ensures ChannelOrder("1.0.0" + "-" + x, "1.0.0" + "-" + y) == CompareIdentifiers(x, y)
  {
    OneZeroZero();
    SplitWithPre("1.0.0", ["1", "0", "0"], x);
    SplitWithPre("1.0.0", ["1", "0", "0"], y);
    CoreEqualsItself(["1", "0", "0"], 0);
    OneOnOne(x, y);
  }

  lemma FirstDifferenceDecides(common: char, x: char, y: char)
    requires x < y
    ensures StringLess([common, x], [common, y]) && StringLess([x, common], [y]) && !StringLess([y], [x, common])
  {
    assert [common, x][1..] == [x] && [common, y][1..] == [y];
  }

  lemma IdentifiersRunInACircle()
    ensures CompareIdentifiers("9", "10") == -1
    ensures CompareIdentifiers("10", "1a") == -1
    ensures CompareIdentifiers("1a", "9") == -1
  {
    assert "9" == Numeral(9) && "10" == Numeral(10);
    NumeralValue(9);
    NumeralValue(10);
    assert "1a"[1] == 'a';
    FirstDifferenceDecides('1', '0', 'a');
    FirstDifferenceDecides('a', '1', '9');
    assert "1a" == ['1', 'a'] && "10" == ['1', '0'] && "9" == ['9'];
  }

  /** On arbitrary prereleases the channel order runs in a circle. */
  lemma ChannelOrderHasACycle()
    ensures ChannelOrder("1.0.0" + "-" + "9", "1.0.0" + "-" + "10") == -1
    ensures ChannelOrder("1.0.0" + "-" + "10", "1.0.0" + "-" + "1a") == -1
    ensures ChannelOrder("1.0.0" + "-" + "1a", "1.0.0" + "-" + "9") == -1
  {
    IdentifiersRunInACircle();
    IdentifierDecides("9", "10");
    IdentifierDecides("10", "1a");
    IdentifierDecides("1a", "9");
  }

  /** Whatever follows a second dash is not looked at. */
  lemma SecondDashIsDropped(core: string, pre: string, more: string)
    requires Without(core, '-') && Without(pre, '-') && core != "" && core[0] != 'v'
    ensures ChannelOrder(core + "-" + pre + "-" + more, core + "-" + pre) == 0
  {
    var short, long := core + "-" + pre, core + "-" + pre + "-" + more;
    assert short == core + ['-'] + pre && long == core + ['-'] + (pre + ['-'] + more);
    SplitOnce(core, '-', pre);
    SplitOnce(core, '-', pre + ['-'] + more);
    SplitOnce(pre, '-', more);
    CoreEqualsItself(Split(core, '.'), 0);
  }
}
