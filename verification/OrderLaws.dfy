/**
 On which sets of versions the order of `scripts/channel-state.ts` is an order.
 */
module OrderLaws {
  import opened Wrappers
  import opened Text
  import opened Versions
  import opened VersionOrder

  // ---- code units --------------------------------------------------------------------------------

  lemma StringsCompare(x: string, y: string)
    ensures !(StringLess(x, y) && StringLess(y, x)) && !StringLess(x, x)
    ensures x == y || StringLess(x, y) || StringLess(y, x)
  {
    if x != "" && y != "" {
      assert x == [x[0]] + x[1..] && y == [y[0]] + y[1..];
      StringsCompare(x[1..], y[1..]);
      StringsCompare(x[1..], x[1..]);
    } else if x != "" {
      StringsCompare(x[1..], x[1..]);
    }
  }

  lemma {:induction false} StringsTransitive(x: string, y: string, z: string)
    requires StringLess(x, y) && StringLess(y, z)
    ensures StringLess(x, z)
  {
    if x != "" && x[0] == y[0] && y[0] == z[0] {
      StringsTransitive(x[1..], y[1..], z[1..]);
    }
  }

  // ---- one identifier --------------------------------------------------------------------------------

  /** Two spellings of one number: leading zeros. */
  predicate SameNumber(x: string, y: string) {
    x != y && Numeric(x) && Numeric(y) && Value(x) == Value(y)
  }

  /** Two numbers, and between them as strings, the other way round, something that is not a number. */
  predicate Tangle(x: string, y: string, z: string) {
    && Numeric(x) && Numeric(y) && !Numeric(z)
    && Value(x) < Value(y) && StringLess(y, z) && StringLess(z, x)
  }

  lemma IdentifierSigns(x: string, y: string)
    ensures -1 <= CompareIdentifiers(x, y) <= 1
    ensures CompareIdentifiers(x, y) == 0 <==> x == y
    ensures CompareIdentifiers(x, y) == -CompareIdentifiers(y, x) <==> !SameNumber(x, y)
    ensures SameNumber(x, y) ==> CompareIdentifiers(x, y) == 1
  {
    StringsCompare(x, y);
  }

  /** Three identifiers run in a circle only as a tangle. */
  lemma IdentifiersChain(x: string, y: string, z: string)
    requires CompareIdentifiers(x, y) == -1 && CompareIdentifiers(y, z) == -1
    requires !SameNumber(x, z) && !SameNumber(x, y) && !SameNumber(y, z)
    requires !Tangle(x, y, z) && !Tangle(y, z, x) && !Tangle(z, x, y)
    ensures CompareIdentifiers(x, z) == -1
  {
    StringsCompare(x, y);
    StringsCompare(y, z);
    StringsCompare(x, z);
    if StringLess(x, y) && StringLess(y, z) {
      StringsTransitive(x, y, z);
    }
    if StringLess(y, z) && StringLess(z, x) {
      StringsTransitive(y, z, x);
    }
    if StringLess(z, x) && StringLess(x, y) {
      StringsTransitive(z, x, y);
    }
  }

  lemma TangleRunsRound(x: string, y: string, z: string)
    requires Tangle(x, y, z)
    ensures CompareIdentifiers(x, y) == -1 && CompareIdentifiers(y, z) == -1 && CompareIdentifiers(z, x) == -1
  {
    StringsCompare(y, z);
    StringsCompare(z, x);
  }

  // ---- prereleases -------------------------------------------------------------------------------------

  predicate AgreeTo(p: seq<string>, q: seq<string>, i: nat) {
    i <= |p| && i <= |q| && p[..i] == q[..i]
  }

  lemma {:induction false} CompareFrom(p: seq<string>, q: seq<string>, i: nat, j: nat)
    requires AgreeTo(p, q, j) && i <= j
    ensures ComparePre(p, q, i) == ComparePre(p, q, j)
    decreases j - i
  {
    if i < j {
      assert p[i] == p[..j][i] == q[..j][i] == q[i];
      CompareFrom(p, q, i + 1, j);
    }
  }

  /** The prereleases part at two spellings of one number. */
  predicate PreClash(p: seq<string>, q: seq<string>) {
    exists i :: 0 <= i < |p| && i < |q| && AgreeTo(p, q, i) && SameNumber(p[i], q[i])
  }

  /** Three prereleases part at one place, at a tangle. */
  predicate PreTangle(p: seq<string>, q: seq<string>, r: seq<string>) {
    exists i :: 0 <= i < |p| && i < |q| && i < |r| && AgreeTo(p, q, i) && AgreeTo(q, r, i) && Tangle(p[i], q[i], r[i])
  }

  lemma AgreeOneMore(p: seq<string>, q: seq<string>, i: nat)
    requires AgreeTo(p, q, i) && i < |p| && i < |q| && p[i] == q[i]
    ensures AgreeTo(p, q, i + 1)
  {
    assert p[..i + 1] == p[..i] + [p[i]] && q[..i + 1] == q[..i] + [q[i]];
  }

  lemma {:induction false} PreSigns(p: seq<string>, q: seq<string>, i: nat)
    requires AgreeTo(p, q, i)
    ensures -1 <= ComparePre(p, q, i) <= 1
    ensures ComparePre(p, q, i) == 0 <==> p == q
    ensures !PreClash(p, q) ==> ComparePre(p, q, i) == -ComparePre(q, p, i)
    decreases |p| - i
  {
    if i < |p| && i < |q| {
      if p[i] == q[i] {
        AgreeOneMore(p, q, i);
        PreSigns(p, q, i + 1);
      } else {
        IdentifierSigns(p[i], q[i]);
      }
    }
  }

  lemma PreClashBreaks(p: seq<string>, q: seq<string>)
    requires PreClash(p, q)
    ensures ComparePre(p, q, 0) == 1 && ComparePre(q, p, 0) == 1
  {
    var i :| 0 <= i < |p| && i < |q| && AgreeTo(p, q, i) && SameNumber(p[i], q[i]);
    CompareFrom(p, q, 0, i);
    CompareFrom(q, p, 0, i);
  }

  lemma PreTangleBreaks(p: seq<string>, q: seq<string>, r: seq<string>)
    requires PreTangle(p, q, r)
    ensures ComparePre(p, q, 0) == -1 && ComparePre(q, r, 0) == -1 && ComparePre(r, p, 0) == -1
  {
    var i :| 0 <= i < |p| && i < |q| && i < |r| && AgreeTo(p, q, i) && AgreeTo(q, r, i) && Tangle(p[i], q[i], r[i]);
    TangleRunsRound(p[i], q[i], r[i]);
    CompareFrom(p, q, 0, i);
    CompareFrom(q, r, 0, i);
    CompareFrom(r, p, 0, i);
  }

  predicate NoClash3(p: seq<string>, q: seq<string>, r: seq<string>) {
    !PreClash(p, q) && !PreClash(q, r) && !PreClash(p, r)
  }

  predicate NoTangle3(p: seq<string>, q: seq<string>, r: seq<string>) {
    !PreTangle(p, q, r) && !PreTangle(q, r, p) && !PreTangle(r, p, q)
  }

  lemma PartingIdentifiers(p: seq<string>, q: seq<string>, r: seq<string>, i: nat)
    requires AgreeTo(p, q, i) && AgreeTo(q, r, i) && i < |p| && i < |q| && i < |r|
    requires NoClash3(p, q, r) && NoTangle3(p, q, r)
    ensures !SameNumber(p[i], q[i]) && !SameNumber(q[i], r[i]) && !SameNumber(p[i], r[i])
    ensures !Tangle(p[i], q[i], r[i]) && !Tangle(q[i], r[i], p[i]) && !Tangle(r[i], p[i], q[i])
  {
    assert AgreeTo(p, r, i) && AgreeTo(r, p, i) && AgreeTo(r, q, i) && AgreeTo(q, p, i);
  }

  lemma {:induction false} PresChain(p: seq<string>, q: seq<string>, r: seq<string>, i: nat)
    requires AgreeTo(p, q, i) && AgreeTo(q, r, i) && NoClash3(p, q, r) && NoTangle3(p, q, r)
    requires ComparePre(p, q, i) <= 0 && ComparePre(q, r, i) <= 0
    ensures ComparePre(p, r, i) <= 0
    decreases |p| - i
  {
    if i < |p| {
      assert i < |q| && i < |r|;
      PartingIdentifiers(p, q, r, i);
      IdentifierSigns(p[i], q[i]);
      IdentifierSigns(q[i], r[i]);
      IdentifierSigns(p[i], r[i]);
      if p[i] == q[i] && q[i] == r[i] {
        AgreeOneMore(p, q, i);
        AgreeOneMore(q, r, i);
        PresChain(p, q, r, i + 1);
      } else if p[i] != q[i] && q[i] != r[i] {
        IdentifiersChain(p[i], q[i], r[i]);
      }
    }
  }

  // ---- cores ---------------------------------------------------------------------------------------------

  lemma {:induction false} CoresChain(a: seq<string>, b: seq<string>, c: seq<string>, i: nat)
    ensures -1 <= CompareCore(a, b, i) <= 1 && CompareCore(a, b, i) == -CompareCore(b, a, i)
    ensures CompareCore(a, b, i) <= 0 && CompareCore(b, c, i) <= 0 ==> CompareCore(a, c, i) <= 0
    ensures CompareCore(a, b, i) <= 0 && CompareCore(b, c, i) <= 0 && CompareCore(a, c, i) == 0 ==>
      CompareCore(a, b, i) == 0 && CompareCore(b, c, i) == 0
    ensures CompareCore(a, b, i) == 0 && CompareCore(b, c, i) == 0 ==> CompareCore(a, c, i) == 0
    decreases |a| + |b| + |c| - i
  {
    if i < |a| || i < |b| || i < |c| {
      CoresChain(a, b, c, i + 1);
    }
  }

  // ---- versions --------------------------------------------------------------------------------------------

  /** The order of two versions taken apart. */
  function OrderParts(a: SplitVersion, b: SplitVersion): int {
    var core := CompareCore(a.core, b.core, 0);
    if core != 0 then core
    else if a.pre == b.pre then 0
    else if a.pre.None? then 1
    else if b.pre.None? then -1
    else ComparePre(Split(a.pre.value, '.'), Split(b.pre.value, '.'), 0)
  }

  lemma OrderIsOfParts(a: string, b: string)
    ensures ChannelOrder(a, b) == OrderParts(SplitParts(a), SplitParts(b))
  {
  }

  function Ids(a: SplitVersion): seq<string> {
    if a.pre.None? then [] else Split(a.pre.value, '.')
  }

  /** Two prereleases of one core. */
  predicate SameCore(a: SplitVersion, b: SplitVersion) {
    CompareCore(a.core, b.core, 0) == 0 && a.pre.Some? && b.pre.Some?
  }

  predicate PartsClash(a: SplitVersion, b: SplitVersion) {
    SameCore(a, b) && PreClash(Ids(a), Ids(b))
  }

  predicate PartsTangle(a: SplitVersion, b: SplitVersion, c: SplitVersion) {
    SameCore(a, b) && SameCore(b, c) && PreTangle(Ids(a), Ids(b), Ids(c))
  }

  lemma BehindFirst<T>(x: T, more: seq<T>)
    ensures ([x] + more)[0] == x && ([x] + more)[1..] == more
  {
  }

  lemma AroundAt<T>(s: seq<T>, i: nat)
    requires i < |s|
    ensures s == s[..i] + [s[i]] + s[i + 1..]
  {
  }

  /** The first piece, and whether another follows it. */
  lemma SplitFirst(s: string, c: char)
    ensures var i, parts := IndexOf(s, c), Split(s, c);
      if i < |s| then |parts| > 1 && parts[0] == s[..i] && parts[1..] == Split(s[i + 1..], c) && s == s[..i] + [c] + s[i + 1..]
      else parts == [s]
  {
    var i := IndexOf(s, c);
    if i < |s| {
      BehindFirst(s[..i], Split(s[i + 1..], c));
      AroundAt(s, i);
    }
  }

  lemma {:induction false} SplitIsInjective(s: string, t: string, c: char)
    requires Split(s, c) == Split(t, c)
    ensures s == t
    decreases |s|
  {
    var i, j := IndexOf(s, c), IndexOf(t, c);
    SplitFirst(s, c);
    SplitFirst(t, c);
    if i < |s| {
      SplitIsInjective(s[i + 1..], t[j + 1..], c);
    }
  }

  lemma PartsSigns(a: SplitVersion, b: SplitVersion)
    ensures -1 <= OrderParts(a, b) <= 1
    ensures OrderParts(a, b) == 0 <==> CompareCore(a.core, b.core, 0) == 0 && a.pre == b.pre
    ensures OrderParts(a, b) == -OrderParts(b, a) <==> !PartsClash(a, b)
  {
    CoresChain(a.core, b.core, a.core, 0);
    if SameCore(a, b) {
      var p, q := Ids(a), Ids(b);
      if p == q {
        SplitIsInjective(a.pre.value, b.pre.value, '.');
      }
      PreSigns(p, q, 0);
      PreSigns(q, p, 0);
      if PreClash(p, q) {
        PreClashBreaks(p, q);
      }
    }
  }

  predicate NoPartsTangle(a: SplitVersion, b: SplitVersion, c: SplitVersion) {
    !PartsTangle(a, b, c) && !PartsTangle(b, c, a) && !PartsTangle(c, a, b)
  }

  lemma PartsChain(a: SplitVersion, b: SplitVersion, c: SplitVersion)
    requires !PartsClash(a, b) && !PartsClash(b, c) && !PartsClash(a, c) && NoPartsTangle(a, b, c)
    requires OrderParts(a, b) <= 0 && OrderParts(b, c) <= 0
    ensures OrderParts(a, c) <= 0
  {
    CoresChain(a.core, b.core, c.core, 0);
    CoresChain(b.core, c.core, a.core, 0);
    CoresChain(a.core, c.core, b.core, 0);
    if CompareCore(a.core, b.core, 0) == 0 && CompareCore(b.core, c.core, 0) == 0 && a.pre.Some? && b.pre.Some? && c.pre.Some? {
      var p, q, r := Ids(a), Ids(b), Ids(c);
      PreSigns(p, q, 0);
      PreSigns(q, r, 0);
      PreSigns(p, r, 0);
      PresChain(p, q, r, 0);
    }
  }

  // ---- sets of versions -----------------------------------------------------------------------------------------

  /** Two versions of one core whose prereleases first part at two spellings of one number. */
  predicate Clash(a: string, b: string) {
    PartsClash(SplitParts(a), SplitParts(b))
  }

  /**
   Three versions of one core whose prereleases part at one place, the first two at numbers that
   go up, the third at something that is no number and lies between them in code units.
   */
  predicate Tangled(a: string, b: string, c: string) {
    PartsTangle(SplitParts(a), SplitParts(b), SplitParts(c))
  }

  /** Two different versions the order does not tell apart: core fields of equal value, and one text up to a second dash. */
  predicate Twins(a: string, b: string) {
    && a != b && CompareCore(SplitParts(a).core, SplitParts(b).core, 0) == 0
    && SplitParts(a).pre == SplitParts(b).pre
  }

  ghost predicate Regular(versions: iset<string>) {
    && (forall a, b :: a in versions && b in versions ==> !Clash(a, b))
    && (forall a, b, c :: a in versions && b in versions && c in versions ==> !Tangled(a, b, c))
  }

  /** Antisymmetric and transitive. */
  ghost predicate Linear(versions: iset<string>) {
    && (forall a, b :: a in versions && b in versions ==> ChannelOrder(a, b) == -ChannelOrder(b, a))
    && (forall a, b, c :: a in versions && b in versions && c in versions ==>
          (ChannelOrder(a, b) <= 0 && ChannelOrder(b, c) <= 0 ==> ChannelOrder(a, c) <= 0))
  }

  lemma RegularIsLinear(versions: iset<string>)
    requires Regular(versions)
    ensures Linear(versions)
  {
    forall a, b | a in versions && b in versions ensures ChannelOrder(a, b) == -ChannelOrder(b, a) {
      assert !Clash(a, b);
      PartsSigns(SplitParts(a), SplitParts(b));
      OrderIsOfParts(a, b);
      OrderIsOfParts(b, a);
    }
    forall a, b, c | a in versions && b in versions && c in versions && ChannelOrder(a, b) <= 0 && ChannelOrder(b, c) <= 0
      ensures ChannelOrder(a, c) <= 0
    {
      assert !Clash(a, b) && !Clash(b, c) && !Clash(a, c);
      assert !Tangled(a, b, c) && !Tangled(b, c, a) && !Tangled(c, a, b);
      OrderIsOfParts(a, b);
      OrderIsOfParts(b, c);
      OrderIsOfParts(a, c);
      PartsChain(SplitParts(a), SplitParts(b), SplitParts(c));
    }
  }

  /** At a clash each of the two is above the other. */
  lemma ClashIsMutual(a: string, b: string)
    requires Clash(a, b)
    ensures ChannelOrder(a, b) == 1 && ChannelOrder(b, a) == 1 && a != b
  {
    var x, y := SplitParts(a), SplitParts(b);
    CoresChain(x.core, y.core, x.core, 0);
    PreClashBreaks(Ids(x), Ids(y));
    PreSigns(Ids(x), Ids(y), 0);
    OrderIsOfParts(a, b);
    OrderIsOfParts(b, a);
  }

  /** At a tangle the three go round in a circle. */
  lemma TangleIsACircle(a: string, b: string, c: string)
    requires Tangled(a, b, c)
    ensures ChannelOrder(a, b) == -1 && ChannelOrder(b, c) == -1 && ChannelOrder(c, a) == -1
    ensures ChannelOrder(b, a) == 1 && ChannelOrder(c, b) == 1 && ChannelOrder(a, c) == 1
  {
    var x, y, z := SplitParts(a), SplitParts(b), SplitParts(c);
    CoresChain(x.core, y.core, z.core, 0);
    CoresChain(z.core, x.core, y.core, 0);
    PreTangleBreaks(Ids(x), Ids(y), Ids(z));
    TangleOtherWay(Ids(x), Ids(y), Ids(z));
    PreSigns(Ids(x), Ids(y), 0);
    PreSigns(Ids(y), Ids(z), 0);
    PreSigns(Ids(z), Ids(x), 0);
    OrderIsOfParts(a, b);
    OrderIsOfParts(b, a);
    OrderIsOfParts(b, c);
    OrderIsOfParts(c, b);
    OrderIsOfParts(c, a);
    OrderIsOfParts(a, c);
  }

  lemma TangleOtherWay(p: seq<string>, q: seq<string>, r: seq<string>)
    requires PreTangle(p, q, r)
    ensures ComparePre(q, p, 0) == 1 && ComparePre(r, q, 0) == 1 && ComparePre(p, r, 0) == 1
  {
    var i :| 0 <= i < |p| && i < |q| && i < |r| && AgreeTo(p, q, i) && AgreeTo(q, r, i) && Tangle(p[i], q[i], r[i]);
    TangleRunsRound(p[i], q[i], r[i]);
    IdentifierSigns(p[i], q[i]);
    IdentifierSigns(q[i], r[i]);
    IdentifierSigns(r[i], p[i]);
    CompareFrom(q, p, 0, i);
    CompareFrom(r, q, 0, i);
    CompareFrom(p, r, 0, i);
  }

  /** The channel order is antisymmetric and transitive on a set of versions if and only if nothing in it clashes or tangles. */
  lemma LinearExactly(versions: iset<string>)
    ensures Linear(versions) <==> Regular(versions)
  {
    if Regular(versions) {
      RegularIsLinear(versions);
    }
    if Linear(versions) {
      forall a, b | a in versions && b in versions ensures !Clash(a, b) {
        if Clash(a, b) {
          ClashIsMutual(a, b);
        }
      }
      forall a, b, c | a in versions && b in versions && c in versions ensures !Tangled(a, b, c) {
        if Tangled(a, b, c) {
          TangleIsACircle(a, b, c);
        }
      }
    }
  }

  /** It is a strict total order of the strings themselves if and only if no two of them are twins either. */
  lemma StrictExactly(versions: iset<string>)
    ensures (Linear(versions) && forall a, b :: a in versions && b in versions && ChannelOrder(a, b) == 0 ==> a == b)
       <==> (Regular(versions) && forall a, b :: a in versions && b in versions ==> !Twins(a, b))
  {
    LinearExactly(versions);
    forall a, b ensures Twins(a, b) <==> a != b && ChannelOrder(a, b) == 0 {
      OrderIsOfParts(a, b);
      PartsSigns(SplitParts(a), SplitParts(b));
    }
  }

  /** Release versions neither clash nor tangle. */
  lemma ReleasesAreRegular(versions: iset<string>)
    requires forall v :: v in versions ==> IsReleaseVersion(v)
    ensures Regular(versions)
  {
    forall a, b | a in versions && b in versions ensures ChannelOrder(a, b) == -ChannelOrder(b, a) {
      ChannelOrderIsTotal(a, b, b);
    }
    forall a, b, c | a in versions && b in versions && c in versions && ChannelOrder(a, b) <= 0 && ChannelOrder(b, c) <= 0
      ensures ChannelOrder(a, c) <= 0
    {
      ChannelOrderIsTotal(a, b, c);
    }
    LinearExactly(versions);
  }
}
