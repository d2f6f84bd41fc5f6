/** The few scanners the modelled regular expressions come down to. */
module Text {
  import opened Wrappers

  predicate IsDigit(c: char) {
    '0' <= c <= '9'
  }

  predicate AllDigits(s: string) {
    forall i :: 0 <= i < |s| ==> IsDigit(s[i])
  }

  /** ECMAScript white space and line terminators: `\s`, and what `trim` removes. */
  predicate IsSpace(c: char) {
    var n := c as int;
    || 9 <= n <= 13 || n == 32 || n == 0xA0 || n == 0x1680 || 0x2000 <= n <= 0x200A
    || n == 0x2028 || n == 0x2029 || n == 0x202F || n == 0x205F || n == 0x3000 || n == 0xFEFF
  }

  function TrimStart(s: string): string {
    if s != "" && IsSpace(s[0]) then TrimStart(s[1..]) else s
  }

  function TrimEnd(s: string): string {
    if s != "" && IsSpace(s[|s| - 1]) then TrimEnd(s[..|s| - 1]) else s
  }

  lemma {:induction false} TrimEndTwice(s: string)
    ensures TrimEnd(TrimEnd(s)) == TrimEnd(s)
    ensures |TrimEnd(s)| <= |s| && s[..|TrimEnd(s)|] == TrimEnd(s)
    ensures TrimEnd(s) != "" ==> !IsSpace(TrimEnd(s)[|TrimEnd(s)| - 1])
    ensures forall i :: |TrimEnd(s)| <= i < |s| ==> IsSpace(s[i])
  {
    if s != "" && IsSpace(s[|s| - 1]) {
      TrimEndTwice(s[..|s| - 1]);
    }
  }

  function Trim(s: string): string {
    TrimEnd(TrimStart(s))
  }

  /** The longest prefix of digits: a greedy `\d*`. */
  function Digits(s: string): (r: string)
    ensures |r| <= |s| && s[..|r|] == r && AllDigits(r)
    ensures |r| < |s| ==> !IsDigit(s[|r|])
  {
    if s != "" && IsDigit(s[0]) then [s[0]] + Digits(s[1..]) else ""
  }

  /** The number a string of digits spells. */
  function Value(s: string): nat
    requires AllDigits(s)
  {
    if s == "" then 0 else Value(s[..|s| - 1]) * 10 + (s[|s| - 1] as int - '0' as int)
  }

  /** The decimal numeral of a number, without leading zeros. */
  function Numeral(n: nat): (r: string)
    ensures |r| > 0 && AllDigits(r)
    ensures |r| > 1 ==> r[0] != '0'
  {
    if n < 10 then [('0' as int + n) as char] else Numeral(n / 10) + [('0' as int + n % 10) as char]
  }

  lemma {:induction false} NumeralValue(n: nat)
    ensures Value(Numeral(n)) == n
  {
    if n >= 10 {
      NumeralValue(n / 10);
      assert Numeral(n)[..|Numeral(n)| - 1] == Numeral(n / 10);
    } else {
      assert Numeral(n)[..0] == "";
    }
  }

  /** A digit prefix is all of it when a non-digit follows. */
  lemma {:induction false} DigitsStop(s: string, rest: string)
    requires AllDigits(s) && (rest == "" || !IsDigit(rest[0]))
    ensures Digits(s + rest) == s
  {
    if s == "" {
      assert s + rest == rest;
    } else {
      assert (s + rest)[1..] == s[1..] + rest;
      DigitsStop(s[1..], rest);
    }
  }

  lemma DigitsStopAtEnd(s: string)
    requires AllDigits(s)
    ensures Digits(s) == s
  {
    assert s + "" == s;
    DigitsStop(s, "");
  }

  predicate HasLeadingZero(s: string) {
    |s| > 1 && s[0] == '0'
  }

  /** A numeral without leading zeros is the numeral of its value. */
  lemma {:induction false} NumeralOfValue(s: string)
    requires s != "" && AllDigits(s) && !HasLeadingZero(s)
    ensures Numeral(Value(s)) == s
  {
    var n := |s| - 1;
    if n > 0 {
      NumeralOfValue(s[..n]);
      ValueIsPositive(s[..n]);
      assert s == s[..n] + [s[n]];
    } else {
      assert s[..0] == "" && s == [s[0]];
    }
  }

  lemma {:induction false} ValueIsPositive(s: string)
    requires s != "" && AllDigits(s) && s[0] != '0'
    ensures Value(s) >= 1
  {
    if |s| > 1 {
      ValueIsPositive(s[..|s| - 1]);
    } else {
      assert s[..0] == "";
    }
  }

  lemma NumeralIsInjective(m: nat, n: nat)
    ensures Numeral(m) == Numeral(n) <==> m == n
  {
    NumeralValue(m);
    NumeralValue(n);
  }

  /** One `(\d+)` and what follows it. */
  datatype Scanned = Scanned(digits: string, rest: string)

  function Field(s: string): (r: Option<Scanned>)
    ensures r.Some? ==> AllDigits(r.value.digits) && r.value.digits != "" && s == r.value.digits + r.value.rest
  {
    var d := Digits(s);
    if d == "" then None else Some(Scanned(d, s[|d|..]))
  }

  /** A literal dot, then one `(\d+)`. */
  function DotField(s: string): (r: Option<Scanned>)
    ensures r.Some? ==> AllDigits(r.value.digits) && r.value.digits != "" && s == "." + r.value.digits + r.value.rest
  {
    if s != "" && s[0] == '.' then Field(s[1..]) else None
  }

  lemma FieldOf(digits: string, rest: string)
    requires digits != "" && AllDigits(digits) && (rest == "" || !IsDigit(rest[0]))
    ensures Field(digits + rest) == Some(Scanned(digits, rest))
    ensures DotField("." + digits + rest) == Some(Scanned(digits, rest))
  {
    DigitsStop(digits, rest);
    assert (digits + rest)[|digits|..] == rest;
    assert ("." + digits + rest)[1..] == digits + rest;
  }

  /** `(\d+)\.(\d+)\.(\d+)` at the start, and what follows it. */
  datatype Triple = Triple(major: string, minor: string, patch: string, rest: string)

  function TripleField(s: string): (r: Option<Triple>)
    ensures r.Some? ==> Numeric(r.value.major) && Numeric(r.value.minor) && Numeric(r.value.patch)
  {
    var major := Field(s);
    if major.None? then None else
    var minor := DotField(major.value.rest);
    if minor.None? then None else
    var patch := DotField(minor.value.rest);
    if patch.None? then None
    else Some(Triple(major.value.digits, minor.value.digits, patch.value.digits, patch.value.rest))
  }

  lemma TripleFieldShape(s: string)
    requires TripleField(s).Some?
    ensures var t := TripleField(s).value; s == t.major + "." + t.minor + "." + t.patch + t.rest
  {
    var major := Field(s).value;
    var minor := DotField(major.rest).value;
    var patch := DotField(minor.rest).value;
    JoinThree(major.digits, minor.digits, patch.digits, patch.rest);
  }

  lemma JoinThree(a: string, b: string, c: string, rest: string)
    ensures a + ("." + b + ("." + c + rest)) == a + "." + b + "." + c + rest
  {
  }

  predicate Numeric(s: string) {
    s != "" && AllDigits(s)
  }

  lemma TripleFieldOf(major: string, minor: string, patch: string, rest: string)
    requires Numeric(major) && Numeric(minor) && Numeric(patch) && (rest == "" || !IsDigit(rest[0]))
    ensures TripleField(major + "." + minor + "." + patch + rest) == Some(Triple(major, minor, patch, rest))
  {
    var afterMinor := "." + patch + rest;
    var afterMajor := "." + minor + afterMinor;
    assert major + "." + minor + "." + patch + rest == major + afterMajor;
    FieldOf(major, afterMajor);
    FieldOf(minor, afterMinor);
    FieldOf(patch, rest);
  }

  /** The first position of a character, or the length. */
  function IndexOf(s: string, c: char): (i: nat)
    ensures i <= |s| && (i < |s| ==> s[i] == c)
    ensures forall j :: 0 <= j < i ==> s[j] != c
  {
    if s == "" || s[0] == c then 0 else 1 + IndexOf(s[1..], c)
  }

  /** `s.split(c)` */
  function Split(s: string, c: char): (r: seq<string>)
    ensures |r| > 0
    decreases |s|
  {
    var i := IndexOf(s, c);
    if i == |s| then [s] else [s[..i]] + Split(s[i + 1..], c)
  }

  predicate Without(s: string, c: char) {
    forall i :: 0 <= i < |s| ==> s[i] != c
  }

  lemma SplitOnce(s: string, c: char, rest: string)
    requires Without(s, c)
    ensures IndexOf(s + [c] + rest, c) == |s|
    ensures Split(s + [c] + rest, c) == [s] + Split(rest, c)
    ensures Split(s, c) == [s] && IndexOf(s, c) == |s|
  {
    var t := s + [c] + rest;
    assert t[|s|] == c && forall i :: 0 <= i < |s| ==> t[i] == s[i];
    assert t[..|s|] == s && t[|s| + 1..] == rest;
  }

  predicate StartsWith(s: string, prefix: string) {
    |prefix| <= |s| && s[..|prefix|] == prefix
  }

  /** A line of a text split at its newlines. */
  predicate IsLine(s: string) {
    Without(s, '\n')
  }

  /** `s.replace(/^v/, '')` */
  function StripV(s: string): string {
    if s != "" && s[0] == 'v' then s[1..] else s
  }

  /** `s.indexOf(t)`, or the length when there is none. */
  function Find(s: string, t: string): (i: nat)
    ensures i <= |s| && (i < |s| ==> StartsWith(s[i..], t))
    ensures forall j :: 0 <= j < i ==> !StartsWith(s[j..], t)
  {
    if s == "" || StartsWith(s, t) then 0
    else
      var i := Find(s[1..], t);
      assert forall j :: 0 < j <= i ==> s[j..] == s[1..][j - 1..];
      1 + i
  }

  /** `t` does not occur in `s`. */
  predicate Free(s: string, t: string) {
    forall i :: 0 <= i < |s| ==> !StartsWith(s[i..], t)
  }

  lemma FindNone(s: string, t: string)
    ensures Find(s, t) == |s| <==> Free(s, t)
  {
  }

  /** ASCII letters only. */
  function Lower(s: string): (r: string)
    ensures |r| == |s|
  {
    if s == "" then "" else [if 'A' <= s[0] <= 'Z' then (s[0] as int + 32) as char else s[0]] + Lower(s[1..])
  }

  function Upper(s: string): (r: string)
    ensures |r| == |s|
  {
    if s == "" then "" else [if 'a' <= s[0] <= 'z' then (s[0] as int - 32) as char else s[0]] + Upper(s[1..])
  }
}
