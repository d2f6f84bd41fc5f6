/**
 The removal of terminal escape sequences: `shared/ansi.ts`.

 Each expression is a matcher that answers how many characters it takes at the start of a
 text, and a global replacement is the leftmost scan with it.
 */
module Ansi {
  import opened Wrappers
  import opened Text

  const Escape: char := 27 as char
  const Bell: char := 7 as char
  const C1Csi: char := 155 as char
  const C1Osc: char := 157 as char
  const C1St: char := 156 as char

  /** `text.replace(expression, '')` for a global expression that never matches nothing. */
  function Remove(match_: string -> nat, s: string): string
    decreases |s|
  {
    if s == "" then ""
    else
      var n := match_(s);
      if 0 < n <= |s| then Remove(match_, s[n..]) else [s[0]] + Remove(match_, s[1..])
  }

  // ---- operating system commands ---------------------------------------------------------------

  predicate StartsWithPair(s: string, first: char, second: char) {
    |s| > 1 && s[0] == first && s[1] == second
  }

  /** The length of an OSC introducer. */
  function OscIntroducer(s: string): (n: nat)
    ensures n <= |s|
  {
    if StartsWithPair(s, Escape, ']') then 2 else if s != "" && s[0] == C1Osc then 1 else 0
  }

  /** The length of a string terminator. */
  function Terminator(s: string): (n: nat)
    ensures n <= |s|
  {
    if s != "" && (s[0] == Bell || s[0] == C1St) then 1 else if StartsWithPair(s, Escape, '\\') then 2 else 0
  }

  /** Body and terminator; zero when another introducer or the end comes first. */
  function OscRest(s: string): (n: nat)
    ensures n <= |s|
    decreases |s|
  {
    if Terminator(s) > 0 then Terminator(s)
    else if s == "" || OscIntroducer(s) > 0 then 0
    else if OscRest(s[1..]) == 0 then 0
    else 1 + OscRest(s[1..])
  }

  function MatchOsc(s: string): nat {
    var n := OscIntroducer(s);
    if n == 0 || OscRest(s[n..]) == 0 then 0 else n + OscRest(s[n..])
  }

  // ---- control sequences --------------------------------------------------------------------------

  predicate IsParameter(c: char) {
    '0' <= c <= '?'
  }

  predicate IsIntermediate(c: char) {
    ' ' <= c <= '/'
  }

  predicate IsFinal(c: char) {
    '@' <= c <= '~'
  }

  function CsiIntroducer(s: string): (n: nat)
    ensures n <= |s|
  {
    if StartsWithPair(s, Escape, '[') then 2 else if s != "" && s[0] == C1Csi then 1 else 0
  }

  /** The longest prefix of characters of one class. */
  function Span(class_: char -> bool, s: string): (n: nat)
    ensures n <= |s|
  {
    if s != "" && class_(s[0]) then 1 + Span(class_, s[1..]) else 0
  }

  /** `[0-?]*[ -/]*[@-~]`; the three classes have no character in common. */
  function CsiRest(s: string): (n: nat)
    ensures n <= |s|
  {
    var p := Span(IsParameter, s);
    var i := p + Span(IsIntermediate, s[p..]);
    if i < |s| && IsFinal(s[i]) then i + 1 else 0
  }

  function MatchCsi(s: string): nat {
    var n := CsiIntroducer(s);
    if n == 0 || CsiRest(s[n..]) == 0 then 0 else n + CsiRest(s[n..])
  }

  // ---- single escapes and what is left --------------------------------------------------------------

  predicate IsSingle(c: char) {
    '@' <= c <= '_'
  }

  function MatchSingle(s: string): nat {
    if |s| > 1 && s[0] == Escape && IsSingle(s[1]) then 2 else 0
  }

  function MatchC1(s: string): nat {
    if s != "" && (s[0] == C1Csi || s[0] == C1Osc) then 1 else 0
  }

  function StripAnsiSequences(text: string): string {
    Remove(MatchC1, Remove(MatchSingle, Remove(MatchCsi, Remove(MatchOsc, text))))
  }

  // ---- on every input ---------------------------------------------------------------------------------

  predicate IsSubsequence(a: string, b: string) {
    a == "" || (b != "" && ((a[0] == b[0] && IsSubsequence(a[1..], b[1..])) || IsSubsequence(a, b[1..])))
  }

  lemma {:induction false} SubsequenceOfMore(a: string, b: string, n: nat)
    requires n <= |b| && IsSubsequence(a, b[n..])
    ensures IsSubsequence(a, b)
    decreases n
  {
    if n > 0 {
      assert b[1..][n - 1..] == b[n..];
      SubsequenceOfMore(a, b[1..], n - 1);
    }
  }

  lemma {:induction false} SubsequenceIsTransitive(a: string, b: string, c: string)
    requires IsSubsequence(a, b) && IsSubsequence(b, c)
    ensures IsSubsequence(a, c)
    decreases |c|
  {
    if a != "" {
      if b[0] == c[0] && IsSubsequence(b[1..], c[1..]) {
        if a[0] == b[0] && IsSubsequence(a[1..], b[1..]) {
          SubsequenceIsTransitive(a[1..], b[1..], c[1..]);
        } else {
          SubsequenceIsTransitive(a, b[1..], c[1..]);
        }
      } else {
        SubsequenceIsTransitive(a, b, c[1..]);
      }
    }
  }

  lemma {:induction false} RemoveOnlyRemoves(match_: string -> nat, s: string)
    ensures IsSubsequence(Remove(match_, s), s)
    decreases |s|
  {
    if s != "" {
      var n := match_(s);
      if 0 < n <= |s| {
        RemoveOnlyRemoves(match_, s[n..]);
        SubsequenceOfMore(Remove(match_, s), s, n);
      } else {
        RemoveOnlyRemoves(match_, s[1..]);
        assert Remove(match_, s)[1..] == Remove(match_, s[1..]);
      }
    }
  }

  lemma {:induction false} C1IsRemoved(s: string)
    ensures Without(Remove(MatchC1, s), C1Csi) && Without(Remove(MatchC1, s), C1Osc)
    decreases |s|
  {
    if s != "" {
      C1IsRemoved(s[1..]);
    }
  }

  /** Whatever comes in, what goes out is part of it, and no 8-bit introducer is left. */
  lemma StripOnlyRemoves(text: string)
    ensures IsSubsequence(StripAnsiSequences(text), text)
    ensures Without(StripAnsiSequences(text), C1Csi) && Without(StripAnsiSequences(text), C1Osc)
  {
    var one := Remove(MatchOsc, text);
    var two := Remove(MatchCsi, one);
    var three := Remove(MatchSingle, two);
    RemoveOnlyRemoves(MatchOsc, text);
    RemoveOnlyRemoves(MatchCsi, one);
    RemoveOnlyRemoves(MatchSingle, two);
    RemoveOnlyRemoves(MatchC1, three);
    SubsequenceIsTransitive(two, one, text);
    SubsequenceIsTransitive(three, two, text);
    SubsequenceIsTransitive(Remove(MatchC1, three), three, text);
    C1IsRemoved(three);
  }

  // ---- a stream of text and sequences -------------------------------------------------------------------

  datatype Ending = BellEnding | C1Ending | EscapeEnding

  datatype Token =
    | Plain(text: string)
    | Osc(eightBit: bool, body: string, ending: Ending)
    | Csi(eightBit: bool, parameters: string, intermediates: string, final: char)
    | Single(char)

  function EndingText(e: Ending): string {
    match e
    case BellEnding => [Bell]
    case C1Ending => [C1St]
    case EscapeEnding => [Escape, '\\']
  }

  function Render(t: Token): string {
    match t
    case Plain(text) => text
    case Osc(eightBit, body, ending) => (if eightBit then [C1Osc] else [Escape, ']']) + body + EndingText(ending)
    case Csi(eightBit, p, i, final) => (if eightBit then [C1Csi] else [Escape, '[']) + p + i + [final]
    case Single(c) => [Escape, c]
  }

  function RenderAll(ts: seq<Token>): string {
    if ts == [] then "" else Render(ts[0]) + RenderAll(ts[1..])
  }

  /** The text between the sequences. */
  function PlainText(ts: seq<Token>): string {
    if ts == [] then "" else (if ts[0].Plain? then ts[0].text else "") + PlainText(ts[1..])
  }

  predicate IsToken(t: Token) {
    match t
    case Plain(text) => Without(text, Escape) && Without(text, C1Csi) && Without(text, C1Osc)
    case Osc(_, body, _) => IsOscBody(body)
    case Csi(_, p, i, final) =>
      && (forall k :: 0 <= k < |p| ==> IsParameter(p[k]))
      && (forall k :: 0 <= k < |i| ==> IsIntermediate(i[k]))
      && IsFinal(final)
    case Single(c) => IsSingle(c) && c != '[' && c != ']'
  }

  /** No terminator and no introducer; an escape on its own, or before any other character, is part of the body. */
  predicate IsOscBody(body: string) {
    && Without(body, Bell) && Without(body, C1St) && Without(body, C1Osc)
    && forall k :: 0 <= k < |body| - 1 && body[k] == Escape ==> body[k + 1] != '\\' && body[k + 1] != ']'
  }

  predicate AreTokens(ts: seq<Token>) {
    forall k :: 0 <= k < |ts| ==> IsToken(ts[k])
  }

  /** A matcher that takes nothing inside `s`, whatever follows it. */
  ghost predicate Passes(match_: string -> nat, s: string) {
    forall k, rest: string :: 0 <= k < |s| ==> match_(s[k..] + rest) == 0
  }

  lemma {:induction false} RemovePasses(match_: string -> nat, s: string, rest: string)
    requires Passes(match_, s)
    ensures Remove(match_, s + rest) == s + Remove(match_, rest)
    decreases |s|
  {
    if s == "" {
      assert s + rest == rest;
    } else {
      assert s[0..] == s && match_(s[0..] + rest) == 0;
      assert (s + rest)[1..] == s[1..] + rest;
      forall k, more: string | 0 <= k < |s[1..]| ensures match_(s[1..][k..] + more) == 0 {
        assert s[1..][k..] == s[k + 1..];
      }
      RemovePasses(match_, s[1..], rest);
    }
  }

  lemma RemoveTakes(match_: string -> nat, s: string, rest: string)
    requires s != "" && match_(s + rest) == |s|
    ensures Remove(match_, s + rest) == Remove(match_, rest)
  {
    assert (s + rest)[|s|..] == rest;
  }

  /** The tokens that are not taken out by a pass over one kind. */
  function Others(takes: Token -> bool, ts: seq<Token>): seq<Token> {
    if ts == [] then [] else (if takes(ts[0]) then [] else [ts[0]]) + Others(takes, ts[1..])
  }

  /** A pass takes a token of its kind whole, and nothing of any other. */
  ghost predicate Handles(match_: string -> nat, takes: Token -> bool, t: Token) {
    if takes(t) then Render(t) != "" && forall rest: string :: match_(Render(t) + rest) == |Render(t)|
    else Passes(match_, Render(t))
  }

  lemma {:induction false} PassTakesItsKind(match_: string -> nat, takes: Token -> bool, ts: seq<Token>)
    requires forall t :: t in ts ==> Handles(match_, takes, t)
    ensures Remove(match_, RenderAll(ts)) == RenderAll(Others(takes, ts))
  {
    if ts != [] {
      var t, rest := ts[0], RenderAll(ts[1..]);
      PassTakesItsKind(match_, takes, ts[1..]);
      assert Handles(match_, takes, t);
      if takes(t) {
        assert match_(Render(t) + rest) == |Render(t)|;
        RemoveTakes(match_, Render(t), rest);
        assert Others(takes, ts) == Others(takes, ts[1..]);
      } else {
        RemovePasses(match_, Render(t), rest);
        assert Others(takes, ts) == [t] + Others(takes, ts[1..]);
      }
    }
  }

  // ---- the four passes on tokens --------------------------------------------------------------------------

  lemma TerminatorOf(e: Ending, rest: string)
    ensures Terminator(EndingText(e) + rest) == |EndingText(e)| > 0
  {
  }

  lemma {:induction false} OscBodyRuns(body: string, e: Ending, rest: string)
    requires IsOscBody(body)
    ensures OscRest(body + EndingText(e) + rest) == |body| + |EndingText(e)|
    decreases |body|
  {
    var s := body + EndingText(e) + rest;
    if body == "" {
      assert s == EndingText(e) + rest;
      TerminatorOf(e, rest);
    } else {
      assert s[0] == body[0] && s[1] == (body + EndingText(e))[1] && s[1..] == body[1..] + EndingText(e) + rest;
      OscBodyRuns(body[1..], e, rest);
    }
  }

  lemma OscIsTaken(t: Token, rest: string)
    requires t.Osc? && IsToken(t)
    ensures MatchOsc(Render(t) + rest) == |Render(t)|
  {
    var intro := if t.eightBit then [C1Osc] else [Escape, ']'];
    var tail := t.body + EndingText(t.ending) + rest;
    var s := Render(t) + rest;
    assert s == intro + tail;
    assert s[|intro|..] == tail;
    OscBodyRuns(t.body, t.ending, rest);
  }

  lemma {:induction false} SpanStops(class_: char -> bool, s: string, rest: string)
    requires (forall k :: 0 <= k < |s| ==> class_(s[k])) && rest != "" && !class_(rest[0])
    ensures Span(class_, s + rest) == |s|
    decreases |s|
  {
    if s == "" {
      assert s + rest == rest;
    } else {
      assert (s + rest)[1..] == s[1..] + rest;
      SpanStops(class_, s[1..], rest);
    }
  }

  lemma CsiBodyRuns(p: string, i: string, final: char, rest: string)
    requires forall k :: 0 <= k < |p| ==> IsParameter(p[k])
    requires forall k :: 0 <= k < |i| ==> IsIntermediate(i[k])
    requires IsFinal(final)
    ensures CsiRest(p + (i + ([final] + rest))) == |p| + |i| + 1
  {
    var tail := [final] + rest;
    var body := p + (i + tail);
    assert i + tail != "" && !IsParameter((i + tail)[0]);
    SpanStops(IsParameter, p, i + tail);
    assert body[|p|..] == i + tail;
    SpanStops(IsIntermediate, i, tail);
    assert body[|p| + |i|] == final;
  }

  lemma Regroup(a: string, b: string, c: string, d: string, e: string)
    ensures a + b + c + d + e == a + (b + (c + (d + e)))
  {
  }

  lemma CsiIsTaken(t: Token, rest: string)
    requires t.Csi? && IsToken(t)
    ensures MatchCsi(Render(t) + rest) == |Render(t)|
  {
    var intro := if t.eightBit then [C1Csi] else [Escape, '['];
    var body := t.parameters + (t.intermediates + ([t.final] + rest));
    Regroup(intro, t.parameters, t.intermediates, [t.final], rest);
    CsiBodyRuns(t.parameters, t.intermediates, t.final, rest);
    TakenBehind(intro, body);
  }

  lemma TakenBehind(intro: string, body: string)
    requires (intro == [C1Csi] || intro == [Escape, '[']) && CsiRest(body) > 0
    ensures MatchCsi(intro + body) == |intro| + CsiRest(body)
  {
    assert (intro + body)[|intro|..] == body;
  }

  /** A pass whose matches start with an escape or one other character goes by text that has neither. */
  lemma PassesText(match_: string -> nat, s: string, c: char)
    requires forall u: string :: u == "" || (u[0] != Escape && u[0] != c) ==> match_(u) == 0
    requires Without(s, Escape) && Without(s, c)
    ensures Passes(match_, s)
  {
    forall k, rest: string | 0 <= k < |s| ensures match_(s[k..] + rest) == 0 {
      assert (s[k..] + rest)[0] == s[k];
    }
  }

  /** An escape sequence of another kind: no match at its escape, and text behind it. */
  lemma PassesSequence(match_: string -> nat, head: string, s: string, c: char)
    requires forall u: string :: u == "" || (u[0] != Escape && u[0] != c) ==> match_(u) == 0
    requires |head| > 0 && (forall rest: string :: match_(head + rest) == 0)
    requires Without(head[1..] + s, Escape) && Without(head[1..] + s, c)
    ensures Passes(match_, head + s)
  {
    var all := head + s;
    forall k, rest: string | 0 <= k < |all| ensures match_(all[k..] + rest) == 0 {
      if k == 0 {
        assert all[0..] + rest == head + (s + rest);
        assert match_(head + (s + rest)) == 0;
      } else {
        assert all[k] == (head[1..] + s)[k - 1];
        assert (all[k..] + rest)[0] == all[k];
      }
    }
  }

  lemma OscPass(t: Token)
    requires IsToken(t)
    ensures Handles(MatchOsc, (u: Token) => u.Osc?, t)
  {
    match t
    case Osc(_, _, _) =>
      forall rest: string ensures MatchOsc(Render(t) + rest) == |Render(t)| {
        OscIsTaken(t, rest);
      }
    case Plain(text) => PassesText(MatchOsc, text, C1Osc);
    case Single(c) => PassesSequence(MatchOsc, [Escape, c], "", C1Osc);
    case Csi(_, _, _, _) => OscPassesCsi(t);
  }

  lemma OscPassesCsi(t: Token)
    requires t.Csi? && IsToken(t)
    ensures Passes(MatchOsc, Render(t))
  {
    var body := t.parameters + t.intermediates + [t.final];
    CsiIsPrintable(t.parameters, t.intermediates, t.final);
    if t.eightBit {
      assert Render(t) == [C1Csi] + body;
      PassesText(MatchOsc, [C1Csi] + body, C1Osc);
    } else {
      assert Render(t) == [Escape, '['] + body;
      PassesSequence(MatchOsc, [Escape, '['], body, C1Osc);
    }
  }

  lemma CsiIsPrintable(p: string, i: string, final: char)
    requires forall k :: 0 <= k < |p| ==> IsParameter(p[k])
    requires forall k :: 0 <= k < |i| ==> IsIntermediate(i[k])
    requires IsFinal(final)
    ensures Without(p + i + [final], Escape) && Without(p + i + [final], C1Osc)
  {
  }

  lemma CsiPass(t: Token)
    requires IsToken(t) && !t.Osc?
    ensures Handles(MatchCsi, (u: Token) => u.Csi?, t)
  {
    match t
    case Csi(_, _, _, _) =>
      forall rest: string ensures MatchCsi(Render(t) + rest) == |Render(t)| {
        CsiIsTaken(t, rest);
      }
    case Plain(text) => PassesText(MatchCsi, text, C1Csi);
    case Single(c) => PassesSequence(MatchCsi, [Escape, c], "", C1Csi);
  }

  lemma SinglePass(t: Token)
    requires IsToken(t) && !t.Osc? && !t.Csi?
    ensures Handles(MatchSingle, (u: Token) => u.Single?, t)
  {
    if t.Plain? {
      PassesText(MatchSingle, t.text, C1Csi);
    }
  }

  lemma C1Pass(t: Token)
    requires IsToken(t) && t.Plain?
    ensures Handles(MatchC1, (u: Token) => false, t)
  {
    forall k, rest: string | 0 <= k < |t.text| ensures MatchC1(t.text[k..] + rest) == 0 {
      assert (t.text[k..] + rest)[0] == t.text[k];
    }
  }

  lemma {:induction false} OthersAre(takes: Token -> bool, ts: seq<Token>)
    ensures forall t :: t in Others(takes, ts) <==> t in ts && !takes(t)
  {
    if ts != [] {
      OthersAre(takes, ts[1..]);
      assert ts[0] in ts;
    }
  }

  lemma {:induction false} OthersKeepText(takes: Token -> bool, ts: seq<Token>)
    requires forall t :: t in ts && t.Plain? ==> !takes(t)
    ensures PlainText(Others(takes, ts)) == PlainText(ts)
  {
    if ts != [] {
      assert ts[0] in ts;
      OthersKeepText(takes, ts[1..]);
      if takes(ts[0]) {
        assert Others(takes, ts) == Others(takes, ts[1..]);
        assert PlainText(ts) == PlainText(ts[1..]);
      } else {
        assert ([ts[0]] + Others(takes, ts[1..]))[1..] == Others(takes, ts[1..]);
      }
    }
  }

  lemma {:induction false} OnlyPlainText(ts: seq<Token>)
    requires forall t :: t in ts ==> t.Plain?
    ensures RenderAll(ts) == PlainText(ts)
  {
    if ts != [] {
      assert ts[0] in ts;
      OnlyPlainText(ts[1..]);
    }
  }

  /** Stripping is a left inverse of rendering: exactly the text between the sequences is left. */
  lemma StripUndoesRender(ts: seq<Token>)
    requires AreTokens(ts)
    ensures StripAnsiSequences(RenderAll(ts)) == PlainText(ts)
  {
    var osc, csi, single, none := (u: Token) => u.Osc?, (u: Token) => u.Csi?, (u: Token) => u.Single?, (u: Token) => false;
    var one := Others(osc, ts);
    var two := Others(csi, one);
    var three := Others(single, two);
    OthersAre(osc, ts);
    OthersAre(csi, one);
    OthersAre(single, two);
    OthersAre(none, three);
    OthersKeepText(osc, ts);
    OthersKeepText(csi, one);
    OthersKeepText(single, two);
    OthersKeepText(none, three);
    forall t | t in ts ensures Handles(MatchOsc, osc, t) {
      OscPass(t);
    }
    forall t | t in one ensures Handles(MatchCsi, csi, t) {
      CsiPass(t);
    }
    forall t | t in two ensures Handles(MatchSingle, single, t) {
      SinglePass(t);
    }
    forall t | t in three ensures Handles(MatchC1, none, t) {
      C1Pass(t);
    }
    PassTakesItsKind(MatchOsc, osc, ts);
    PassTakesItsKind(MatchCsi, csi, one);
    PassTakesItsKind(MatchSingle, single, two);
    PassTakesItsKind(MatchC1, none, three);
    OnlyPlainText(Others(none, three));
  }

  // ---- sequences that are cut off ---------------------------------------------------------------------------

  /** An unterminated command loses its introducer and keeps its text. */
  lemma UnterminatedOscKeepsText(eightBit: bool, payload: string)
    requires Without(payload, Escape) && Without(payload, Bell) && Without(payload, C1St)
    requires Without(payload, C1Osc) && Without(payload, C1Csi)
    ensures StripAnsiSequences((if eightBit then [C1Osc] else [Escape, ']']) + payload) == payload
  {
    var intro := if eightBit then [C1Osc] else [Escape, ']'];
    var s := intro + payload;
    assert s[|intro|..] == payload;
    OscRestRunsOut(payload);
    PlainIsKept(payload);
    assert payload + "" == payload;
    RemovePasses(MatchOsc, payload, "");
    RemovePasses(MatchCsi, payload, "");
    RemovePasses(MatchSingle, payload, "");
    RemovePasses(MatchC1, payload, "");
    IntroducerOnly(eightBit, payload);
  }

  lemma {:induction false} OscRestRunsOut(s: string)
    requires Without(s, Escape) && Without(s, Bell) && Without(s, C1St) && Without(s, C1Osc)
    ensures OscRest(s) == 0
    decreases |s|
  {
    if s != "" {
      OscRestRunsOut(s[1..]);
    }
  }

  lemma PlainIsKept(s: string)
    requires Without(s, Escape) && Without(s, C1Csi) && Without(s, C1Osc)
    ensures Passes(MatchOsc, s) && Passes(MatchCsi, s) && Passes(MatchSingle, s) && Passes(MatchC1, s)
  {
    PassesText(MatchOsc, s, C1Osc);
    PassesText(MatchCsi, s, C1Csi);
    PassesText(MatchSingle, s, C1Csi);
    C1Pass(Plain(s));
  }

  /** The four passes on an introducer that no terminator follows. */
  lemma IntroducerOnly(eightBit: bool, payload: string)
    requires OscRest(payload) == 0
    requires Remove(MatchOsc, payload) == payload && Remove(MatchCsi, payload) == payload
    requires Remove(MatchSingle, payload) == payload && Remove(MatchC1, payload) == payload
    ensures StripAnsiSequences((if eightBit then [C1Osc] else [Escape, ']']) + payload) == payload
  {
    if eightBit {
      C1IntroducerOnly(payload);
    } else {
      EscapeIntroducerOnly(payload);
    }
  }

  lemma Keeps(match_: string -> nat, c: char, rest: string)
    requires match_([c] + rest) == 0 && Remove(match_, rest) == rest
    ensures Remove(match_, [c] + rest) == [c] + rest
  {
    assert ([c] + rest)[1..] == rest;
  }

  lemma C1IntroducerOnly(payload: string)
    requires OscRest(payload) == 0
    requires Remove(MatchOsc, payload) == payload && Remove(MatchCsi, payload) == payload
    requires Remove(MatchSingle, payload) == payload && Remove(MatchC1, payload) == payload
    ensures StripAnsiSequences([C1Osc] + payload) == payload
  {
    assert ([C1Osc] + payload)[1..] == payload;
    Keeps(MatchOsc, C1Osc, payload);
    Keeps(MatchCsi, C1Osc, payload);
    Keeps(MatchSingle, C1Osc, payload);
  }

  lemma EscapeIntroducerOnly(payload: string)
    requires OscRest(payload) == 0
    requires Remove(MatchOsc, payload) == payload && Remove(MatchCsi, payload) == payload
    requires Remove(MatchSingle, payload) == payload && Remove(MatchC1, payload) == payload
    ensures StripAnsiSequences([Escape, ']'] + payload) == payload
  {
    var t := [']'] + payload;
    assert [Escape, ']'] + payload == [Escape] + t;
    assert ([Escape] + t)[2..] == payload;
    Keeps(MatchOsc, ']', payload);
    Keeps(MatchCsi, ']', payload);
    Keeps(MatchOsc, Escape, t);
    Keeps(MatchCsi, Escape, t);
  }

  // ---- stripping twice --------------------------------------------------------------------------------

  /** No escape stands before a character that makes a two-character sequence with it. */
  predicate NoPair(s: string) {
    forall k :: 0 <= k < |s| - 1 && s[k] == Escape ==> !IsSingle(s[k + 1])
  }

  lemma {:induction false} RemoveShortens(match_: string -> nat, s: string)
    ensures |Remove(match_, s)| <= |s|
    ensures |Remove(match_, s)| == |s| ==> Remove(match_, s) == s
    decreases |s|
  {
    if s != "" {
      var n := match_(s);
      if 0 < n <= |s| {
        RemoveShortens(match_, s[n..]);
      } else {
        RemoveShortens(match_, s[1..]);
      }
    }
  }

  lemma {:induction false} PairsAreRemoved(s: string)
    requires !NoPair(s)
    ensures |Remove(MatchSingle, s)| < |s|
    decreases |s|
  {
    if MatchSingle(s) > 0 {
      RemoveShortens(MatchSingle, s[2..]);
    } else {
      var k :| 0 <= k < |s| - 1 && s[k] == Escape && IsSingle(s[k + 1]);
      assert s[1..][k - 1] == Escape && IsSingle(s[1..][k - 1 + 1]);
      PairsAreRemoved(s[1..]);
    }
  }

  lemma {:induction false} NothingToRemove(s: string)
    requires NoPair(s) && Without(s, C1Csi) && Without(s, C1Osc)
    ensures Remove(MatchOsc, s) == s && Remove(MatchCsi, s) == s && Remove(MatchSingle, s) == s && Remove(MatchC1, s) == s
    decreases |s|
  {
    if s != "" {
      assert NoPair(s[1..]) by {
        forall k | 0 <= k < |s[1..]| - 1 && s[1..][k] == Escape ensures !IsSingle(s[1..][k + 1]) {
          assert s[k + 1] == Escape && s[1..][k + 1] == s[k + 1 + 1];
        }
      }
      NothingToRemove(s[1..]);
    }
  }

  /** The texts that come through unchanged. */
  lemma StripKeepsExactly(text: string)
    ensures StripAnsiSequences(text) == text <==> NoPair(text) && Without(text, C1Csi) && Without(text, C1Osc)
  {
    if StripAnsiSequences(text) == text {
      var one := Remove(MatchOsc, text);
      var two := Remove(MatchCsi, one);
      var three := Remove(MatchSingle, two);
      RemoveShortens(MatchOsc, text);
      RemoveShortens(MatchCsi, one);
      RemoveShortens(MatchSingle, two);
      RemoveShortens(MatchC1, three);
      C1IsRemoved(three);
      if !NoPair(text) {
        PairsAreRemoved(text);
      }
    } else if NoPair(text) && Without(text, C1Csi) && Without(text, C1Osc) {
      NothingToRemove(text);
    }
  }

  /** Stripping twice is stripping once exactly when the first time left no escape that closes up on what now follows it. */
  lemma StripTwiceExactly(text: string)
    ensures var once := StripAnsiSequences(text); StripAnsiSequences(once) == once <==> NoPair(once)
  {
    StripOnlyRemoves(text);
    StripKeepsExactly(StripAnsiSequences(text));
  }

  /** That fails: two escapes can close up on a third character. */
  lemma StripIsNotIdempotent()
    ensures StripAnsiSequences([Escape, Escape, '@', '@']) == [Escape, '@']
    ensures StripAnsiSequences([Escape, '@']) == ""
  {
    var s, t := [Escape, Escape, '@', '@'], [Escape, '@'];
    NoBrackets(s);
    NoBrackets(t);
    SinglesOf(s, t);
    C1Keeps(t);
  }

  lemma C1Keeps(t: string)
    requires t == [Escape, '@']
    ensures Remove(MatchC1, t) == t && Remove(MatchC1, "") == ""
  {
    assert ['@'] + "" == ['@'] && [Escape] + ['@'] == t;
    Keeps(MatchC1, '@', "");
    Keeps(MatchC1, Escape, ['@']);
  }

  lemma SinglesOf(s: string, t: string)
    requires s == [Escape, Escape, '@', '@'] && t == [Escape, '@']
    ensures Remove(MatchSingle, s) == t && Remove(MatchSingle, t) == ""
  {
    assert MatchSingle(s) == 0 && s[1..] == [Escape, '@', '@'];
    assert MatchSingle(s[1..]) == 2 && s[1..][2..] == ['@'];
    assert Remove(MatchSingle, s[1..]) == Remove(MatchSingle, ['@']);
    assert MatchSingle(['@']) == 0 && ['@'][1..] == "";
    assert MatchSingle(t) == 2 && t[2..] == "";
  }

  lemma {:induction false} NoBrackets(s: string)
    requires Without(s, ']') && Without(s, '[') && Without(s, C1Osc) && Without(s, C1Csi)
    ensures Remove(MatchOsc, s) == s && Remove(MatchCsi, s) == s
    decreases |s|
  {
    if s != "" {
      NoBrackets(s[1..]);
    }
  }
}
