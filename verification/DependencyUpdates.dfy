/**
 The search for a set of dependency updates that resolves: `findCompatibleDependencyUpdates`
 of `scripts/dev-maintenance.ts`. The preview, an npm run in a scratch directory, is a
 function of the candidates it is given.
 */
module DependencyUpdates {
  import opened Wrappers

  datatype Candidate = Candidate(name: string, current: string, targetVersion: string)

  /** A preview; as in the source, an empty error string counts as no error. */
  datatype Preview = Preview(
    contents: string, error: string, peerConflict: bool, policyUrl: Option<string>)
  {
    predicate Fails() { error != "" }
    predicate PeerFailure() { Fails() && peerConflict }
    predicate PolicyFailure() { Fails() && !peerConflict && policyUrl.Some? && policyUrl.value != "" }
    predicate FatalFailure() { Fails() && !PeerFailure() && !PolicyFailure() }
  }

  datatype Reason = PeerIncompatible | RegistryTarballPolicy

  datatype Held = Held(candidate: Candidate, reason: Reason, detail: string)

  datatype Found = Found(accepted: seq<Candidate>, held: seq<Held>, preview: Option<Preview>, error: string)

  type Oracle = seq<Candidate> -> Preview

  // ---- the search as a function -----------------------------------------------------

  /** Accepted, held for good, and waiting for the next round. */
  datatype Piles = Piles(accepted: seq<Candidate>, held: seq<Held>, next: seq<Held>)

  /** One preview: the candidate on top of what is accepted so far. */
  function Place(oracle: Oracle, summarize: string -> string, s: Piles, c: Candidate): Result<Piles> {
    var preview := oracle(s.accepted + [c]);
    if !preview.Fails() then Ok(s.(accepted := s.accepted + [c]))
    else if preview.peerConflict then
      Ok(s.(next := s.next + [Held(c, PeerIncompatible, summarize(preview.error))]))
    else if preview.PolicyFailure() then
      Ok(s.(held := s.held + [Held(c, RegistryTarballPolicy, preview.policyUrl.value)]))
    else Err(preview.error)
  }

  /** One round over the pending candidates. */
  function Round(oracle: Oracle, summarize: string -> string, s: Piles, pending: seq<Candidate>): Result<Piles> {
    if pending == [] then Ok(s)
    else
      var init := Round(oracle, summarize, s, pending[..|pending| - 1]);
      if init.Err? then init else Place(oracle, summarize, init.value, pending[|pending| - 1])
  }

  function CandidatesOf(held: seq<Held>): (r: seq<Candidate>)
    ensures |r| == |held|
  {
    if held == [] then [] else CandidatesOf(held[..|held| - 1]) + [held[|held| - 1].candidate]
  }

  /** Rounds until one accepts nothing; the piles then hold what is left in `next`. */
  function Settle(
    oracle: Oracle, summarize: string -> string, accepted: seq<Candidate>, held: seq<Held>, pending: seq<Candidate>)
    : Result<Piles>
    decreases |pending|
  {
    var round := Round(oracle, summarize, Piles(accepted, held, []), pending);
    if round.Err? then round
    else
      RoundShrinks(oracle, summarize, Piles(accepted, held, []), pending);
      var s := round.value;
      if |s.accepted| == |accepted| || s.next == [] then round
      else Settle(oracle, summarize, s.accepted, s.held, CandidatesOf(s.next))
  }

  lemma {:induction false} RoundShrinks(oracle: Oracle, summarize: string -> string, s: Piles, pending: seq<Candidate>)
    requires Round(oracle, summarize, s, pending).Ok?
    ensures var t := Round(oracle, summarize, s, pending).value;
      && |s.accepted| <= |t.accepted|
      && |t.next| + |t.accepted| <= |s.next| + |s.accepted| + |pending|
  {
    if pending != [] {
      RoundShrinks(oracle, summarize, s, pending[..|pending| - 1]);
    }
  }

  // ---- what a round keeps --------------------------------------------------------------

  function Contents(s: Piles): multiset<Candidate> {
    multiset(s.accepted) + multiset(CandidatesOf(s.held)) + multiset(CandidatesOf(s.next))
  }

  lemma AppendHeld(hs: seq<Held>, h: Held)
    ensures CandidatesOf(hs + [h]) == CandidatesOf(hs) + [h.candidate]
  {
    assert (hs + [h])[..|hs|] == hs;
  }

  lemma PlaceSplits(oracle: Oracle, summarize: string -> string, s: Piles, c: Candidate)
    requires Place(oracle, summarize, s, c).Ok?
    ensures Contents(Place(oracle, summarize, s, c).value) == Contents(s) + multiset{c}
  {
    var t := Place(oracle, summarize, s, c).value;
    if t.next != s.next {
      AppendHeld(s.next, t.next[|s.next|]);
    } else if t.held != s.held {
      AppendHeld(s.held, t.held[|s.held|]);
    }
  }

  lemma SplitsJoin(s: Piles, before: Piles, after: Piles, init: seq<Candidate>, last: Candidate)
    requires Contents(before) == Contents(s) + multiset(init)
    requires Contents(after) == Contents(before) + multiset{last}
    ensures Contents(after) == Contents(s) + multiset(init + [last])
  {
  }

  lemma RoundLast(oracle: Oracle, summarize: string -> string, s: Piles, init: seq<Candidate>, last: Candidate)
    requires Round(oracle, summarize, s, init + [last]).Ok?
    ensures Round(oracle, summarize, s, init).Ok?
    ensures Place(oracle, summarize, Round(oracle, summarize, s, init).value, last)
         == Round(oracle, summarize, s, init + [last])
  {
    assert (init + [last])[..|init|] == init;
  }

  /** No candidate is lost or doubled. */
  lemma {:induction false} RoundSplits(
    oracle: Oracle, summarize: string -> string, s: Piles, pending: seq<Candidate>, after: Piles)
    requires Round(oracle, summarize, s, pending) == Ok(after)
    ensures Contents(after) == Contents(s) + multiset(pending)
    decreases |pending|
  {
    if pending != [] {
      var init, last := pending[..|pending| - 1], pending[|pending| - 1];
      assert pending == init + [last];
      RoundLast(oracle, summarize, s, init, last);
      var before := Round(oracle, summarize, s, init).value;
      RoundSplits(oracle, summarize, s, init, before);
      PlaceSplits(oracle, summarize, before, last);
      SplitsJoin(s, before, after, init, last);
    }
  }

  predicate Resolves(oracle: Oracle, accepted: seq<Candidate>) {
    accepted != [] ==> !oracle(accepted).Fails()
  }

  lemma {:induction false} RoundResolves(oracle: Oracle, summarize: string -> string, s: Piles, pending: seq<Candidate>)
    requires Round(oracle, summarize, s, pending).Ok? && Resolves(oracle, s.accepted)
    ensures Resolves(oracle, Round(oracle, summarize, s, pending).value.accepted)
  {
    if pending != [] {
      RoundResolves(oracle, summarize, s, pending[..|pending| - 1]);
    }
  }

  /** Refused by the registry's policy on top of some earlier part of the accepted set. */
  ghost predicate RefusedAt(oracle: Oracle, accepted: seq<Candidate>, h: Held, k: int) {
    0 <= k <= |accepted| && oracle(accepted[..k] + [h.candidate]).PolicyFailure()
  }

  ghost predicate HeldByPolicy(oracle: Oracle, accepted: seq<Candidate>, held: seq<Held>) {
    forall h :: h in held ==> h.reason == RegistryTarballPolicy && exists k :: RefusedAt(oracle, accepted, h, k)
  }

  lemma PolicyOutlastsAccept(oracle: Oracle, accepted: seq<Candidate>, c: Candidate, held: seq<Held>)
    requires HeldByPolicy(oracle, accepted, held)
    ensures HeldByPolicy(oracle, accepted + [c], held)
  {
    forall h | h in held ensures exists k :: RefusedAt(oracle, accepted + [c], h, k) {
      var k :| RefusedAt(oracle, accepted, h, k);
      assert (accepted + [c])[..k] == accepted[..k];
      assert RefusedAt(oracle, accepted + [c], h, k);
    }
  }

  lemma {:induction false} RoundHolds(oracle: Oracle, summarize: string -> string, s: Piles, pending: seq<Candidate>)
    requires Round(oracle, summarize, s, pending).Ok? && HeldByPolicy(oracle, s.accepted, s.held)
    ensures var t := Round(oracle, summarize, s, pending).value; HeldByPolicy(oracle, t.accepted, t.held)
  {
    if pending != [] {
      var n := |pending| - 1;
      RoundHolds(oracle, summarize, s, pending[..n]);
      var t := Round(oracle, summarize, s, pending[..n]).value;
      PolicyOutlastsAccept(oracle, t.accepted, pending[n], t.held);
      var preview := oracle(t.accepted + [pending[n]]);
      if preview.PolicyFailure() {
        var h := Held(pending[n], RegistryTarballPolicy, preview.policyUrl.value);
        assert t.accepted[..|t.accepted|] == t.accepted;
        assert RefusedAt(oracle, t.accepted, h, |t.accepted|);
      }
    }
  }

  /** Every peer-incompatible item still conflicts with the accepted set, for the reason given. */
  ghost predicate StillConflict(
    oracle: Oracle, summarize: string -> string, accepted: seq<Candidate>, pending: seq<Held>)
  {
    forall h :: h in pending ==>
      && h.reason == PeerIncompatible
      && oracle(accepted + [h.candidate]).PeerFailure()
      && h.detail == summarize(oracle(accepted + [h.candidate]).error)
  }

  lemma {:induction false} IdleRoundConflicts(oracle: Oracle, summarize: string -> string, s: Piles, pending: seq<Candidate>)
    requires Round(oracle, summarize, s, pending).Ok? && StillConflict(oracle, summarize, s.accepted, s.next)
    ensures var t := Round(oracle, summarize, s, pending).value;
      |t.accepted| == |s.accepted| ==> t.accepted == s.accepted && StillConflict(oracle, summarize, t.accepted, t.next)
  {
    if pending != [] {
      var n := |pending| - 1;
      IdleRoundConflicts(oracle, summarize, s, pending[..n]);
      RoundShrinks(oracle, summarize, s, pending[..n]);
    }
  }

  // ---- what the search comes to ------------------------------------------------------------

  lemma {:induction false} SettleIsSound(
    oracle: Oracle, summarize: string -> string, accepted: seq<Candidate>, held: seq<Held>, pending: seq<Candidate>)
    requires Settle(oracle, summarize, accepted, held, pending).Ok?
    requires Resolves(oracle, accepted) && HeldByPolicy(oracle, accepted, held)
    ensures var t := Settle(oracle, summarize, accepted, held, pending).value;
      && Contents(t) == Contents(Piles(accepted, held, [])) + multiset(pending)
      && Resolves(oracle, t.accepted) && HeldByPolicy(oracle, t.accepted, t.held)
      && StillConflict(oracle, summarize, t.accepted, t.next)
    decreases |pending|
  {
    var s := Piles(accepted, held, []);
    var t := Round(oracle, summarize, s, pending).value;
    RoundShrinks(oracle, summarize, s, pending);
    RoundSplits(oracle, summarize, s, pending, t);
    RoundResolves(oracle, summarize, s, pending);
    RoundHolds(oracle, summarize, s, pending);
    IdleRoundConflicts(oracle, summarize, s, pending);
    if |t.accepted| != |accepted| && t.next != [] {
      SettleIsSound(oracle, summarize, t.accepted, t.held, CandidatesOf(t.next));
      assert Contents(t) == Contents(Piles(t.accepted, t.held, [])) + multiset(CandidatesOf(t.next));
    }
  }

  // ---- the search as it is written -----------------------------------------------------------

  /** n + (n-1) + ... + 1 */
  function Triangle(n: nat): nat {
    if n == 0 then 0 else n + Triangle(n - 1)
  }

  lemma {:induction false} TriangleClosedForm(n: nat)
    ensures 2 * Triangle(n) == n * (n + 1)
  {
    if n > 0 {
      TriangleClosedForm(n - 1);
    }
  }

  lemma {:induction false} TriangleMono(m: nat, n: nat)
    requires m <= n
    ensures Triangle(m) <= Triangle(n)
  {
    if m < n {
      TriangleMono(m, n - 1);
    }
  }

  method TryEach(
    oracle: Oracle, summarize: string -> string, accepted0: seq<Candidate>, held0: seq<Held>, pending: seq<Candidate>)
    returns (piles: Piles, progress: bool, fatal: string)
    ensures var round := Round(oracle, summarize, Piles(accepted0, held0, []), pending);
      if round.Err? then fatal == round.error && fatal != ""
      else fatal == "" && round == Ok(piles) && progress == (|piles.accepted| != |accepted0|)
  {
    piles, progress, fatal := Piles(accepted0, held0, []), false, "";
    ghost var s := piles;
    for i := 0 to |pending|
      invariant fatal == "" && Round(oracle, summarize, s, pending[..i]) == Ok(piles)
      invariant |piles.accepted| >= |accepted0| && progress == (|piles.accepted| != |accepted0|)
    {
      assert pending[..i + 1][..i] == pending[..i];
      var item := pending[i];
      var preview := oracle(piles.accepted + [item]);
      if !preview.Fails() {
        piles := piles.(accepted := piles.accepted + [item]);
        progress := true;
      } else if preview.peerConflict {
        piles := piles.(next := piles.next + [Held(item, PeerIncompatible, summarize(preview.error))]);
      } else if preview.PolicyFailure() {
        piles := piles.(held := piles.held + [Held(item, RegistryTarballPolicy, preview.policyUrl.value)]);
      } else {
        fatal := preview.error;
        RoundStops(oracle, summarize, s, pending, i + 1);
        return;
      }
    }
    assert pending[..|pending|] == pending;
  }

  lemma {:induction false} RoundStops(
    oracle: Oracle, summarize: string -> string, s: Piles, pending: seq<Candidate>, i: nat)
    requires i <= |pending| && Round(oracle, summarize, s, pending[..i]).Err?
    ensures Round(oracle, summarize, s, pending) == Round(oracle, summarize, s, pending[..i])
    decreases |pending| - i
  {
    if i == |pending| {
      assert pending[..i] == pending;
    } else {
      assert pending[..i + 1][..i] == pending[..i];
      RoundStops(oracle, summarize, s, pending, i + 1);
    }
  }

  method Search(candidates: seq<Candidate>, oracle: Oracle, summarize: string -> string)
    returns (piles: Piles, fatal: string, calls: nat)
    requires candidates != []
    ensures var settled := Settle(oracle, summarize, [], [], candidates);
      if settled.Err? then fatal == settled.error && fatal != "" else fatal == "" && settled == Ok(piles)
    ensures calls <= Triangle(|candidates|)
  {
    piles, fatal, calls := Piles([], [], []), "", 0;
    var pending := candidates;
    ghost var settled := Settle(oracle, summarize, [], [], candidates);
    var madeProgress := true;
    while madeProgress && |pending| > 0
      invariant fatal == ""
      invariant if madeProgress && |pending| > 0 then settled == Settle(oracle, summarize, piles.accepted, piles.held, pending)
                else settled == Ok(piles)
      invariant calls + StillToPay(madeProgress, |pending|) <= Triangle(|candidates|)
      decreases madeProgress, |pending|
    {
      RoundMayShrink(oracle, summarize, piles.accepted, piles.held, pending);
      SettleStep(oracle, summarize, piles.accepted, piles.held, pending);
      ghost var before := |pending|;
      calls := calls + |pending|;
      piles, madeProgress, fatal := TryEach(oracle, summarize, piles.accepted, piles.held, pending);
      if fatal != "" {
        return;
      }
      pending := CandidatesOf(piles.next);
      RoundPays(before, madeProgress, |pending|);
    }
  }

  /** The previews that rounds over `n` candidates can still take. */
  function StillToPay(madeProgress: bool, n: nat): nat {
    if madeProgress then Triangle(n) else 0
  }

  lemma RoundPays(before: nat, progress: bool, after: nat)
    requires before > 0 && (progress ==> after < before)
    ensures before + StillToPay(progress, after) <= Triangle(before)
  {
    if progress {
      TriangleMono(after, before - 1);
    }
  }

  /** One round of the search settles, stops, or is followed by the next. */
  lemma SettleStep(
    oracle: Oracle, summarize: string -> string, accepted: seq<Candidate>, held: seq<Held>, pending: seq<Candidate>)
    ensures var round := Round(oracle, summarize, Piles(accepted, held, []), pending);
      Settle(oracle, summarize, accepted, held, pending)
      == if round.Err? || |round.value.accepted| == |accepted| || round.value.next == [] then round
         else Settle(oracle, summarize, round.value.accepted, round.value.held, CandidatesOf(round.value.next))
  {
  }

  lemma RoundMayShrink(
    oracle: Oracle, summarize: string -> string, accepted: seq<Candidate>, held: seq<Held>, pending: seq<Candidate>)
    ensures var round := Round(oracle, summarize, Piles(accepted, held, []), pending);
      round.Ok? && |round.value.accepted| != |accepted| ==> |round.value.next| < |pending|
  {
    if Round(oracle, summarize, Piles(accepted, held, []), pending).Ok? {
      RoundShrinks(oracle, summarize, Piles(accepted, held, []), pending);
    }
  }

  /**
   The whole search; `calls` counts previews. The source's error return after the final
   preview is dead code: the accepted set was previewed, and resolved, when its last member
   joined.
   */
  method FindCompatible(candidates: seq<Candidate>, oracle: Oracle, summarize: string -> string)
    returns (found: Found, calls: nat)
    // an error accepts and holds nothing
    ensures found.error != "" ==> found.accepted == [] && found.held == [] && found.preview == None
    // otherwise the candidates split into accepted and held
    ensures found.error == "" ==>
      multiset(found.accepted) + multiset(CandidatesOf(found.held)) == multiset(candidates)
    // what is accepted resolves, and the preview handed on is the preview of exactly that
    ensures found.error == "" && found.accepted != [] ==>
      found.preview == Some(oracle(found.accepted)) && !oracle(found.accepted).Fails()
    // what is held met the registry's policy on the way, or conflicts with what is accepted
    ensures found.error == "" ==>
      exists n :: 0 <= n <= |found.held|
        && HeldByPolicy(oracle, found.accepted, found.held[..n])
        && StillConflict(oracle, summarize, found.accepted, found.held[n..])
    ensures calls <= |candidates| * (|candidates| + 1) / 2 + 2
  {
    TriangleClosedForm(|candidates|);
    if candidates == [] {
      found, calls := Found([], [], None, ""), 0;
      assert found.held[..0] == found.held[0..] == [];
      return;
    }
    var combined := oracle(candidates);
    if !combined.Fails() {
      found, calls := Found(candidates, [], Some(combined), ""), 1;
      assert found.held[..0] == found.held[0..] == [];
      return;
    }
    if combined.FatalFailure() {
      return Found([], [], None, combined.error), 1;
    }
    var piles, fatal, more := Search(candidates, oracle, summarize);
    calls := 1 + more;
    if fatal != "" {
      return Found([], [], None, fatal), calls;
    }
    var finalPreview := None;
    if |piles.accepted| > 0 {
      finalPreview := Some(oracle(piles.accepted));
      calls := calls + 1;
    }
    found := Found(piles.accepted, piles.held + piles.next, finalPreview, "");
    SettledPiles(candidates, oracle, summarize, piles);
  }

  /** The piles of a search that came to an end, as one list of held updates. */
  lemma SettledPiles(candidates: seq<Candidate>, oracle: Oracle, summarize: string -> string, piles: Piles)
    requires Settle(oracle, summarize, [], [], candidates) == Ok(piles)
    ensures Resolves(oracle, piles.accepted)
    ensures HeldByPolicy(oracle, piles.accepted, (piles.held + piles.next)[..|piles.held|])
    ensures StillConflict(oracle, summarize, piles.accepted, (piles.held + piles.next)[|piles.held|..])
    ensures multiset(piles.accepted) + multiset(CandidatesOf(piles.held + piles.next)) == multiset(candidates)
  {
    SettleIsSound(oracle, summarize, [], [], candidates);
    assert (piles.held + piles.next)[..|piles.held|] == piles.held;
    assert (piles.held + piles.next)[|piles.held|..] == piles.next;
    assert Contents(piles) == multiset(candidates) by {
      assert Contents(Piles([], [], [])) == multiset{};
    }
    ContentsAsOne(piles);
  }

  lemma ContentsAsOne(s: Piles)
    ensures Contents(s) == multiset(s.accepted) + multiset(CandidatesOf(s.held + s.next))
  {
    CandidatesConcat(s.held, s.next);
  }

  lemma {:induction false} CandidatesConcat(xs: seq<Held>, ys: seq<Held>)
    ensures CandidatesOf(xs + ys) == CandidatesOf(xs) + CandidatesOf(ys)
  {
    if ys == [] {
      assert xs + ys == xs;
    } else {
      var n := |ys| - 1;
      CandidatesConcat(xs, ys[..n]);
      assert (xs + ys)[..|xs| + n] == xs + ys[..n];
    }
  }
}
