/**
 Concurrent pushers of one channel: `scripts/channel-push.ts`.

 The file in the channel's repository is replaced only against the blob it was read as, and a
 blob is named by its content. Between a pusher's read and its write every other pusher may
 act. A read may answer nothing although a file is there.
 */
module ChannelPush {
  import opened Wrappers
  import opened Versions
  import opened VersionOrder
  import opened PackageManifests
  import opened OrderLaws
  import opened ChannelState

  /** How a channel prints its descriptor and reads one back. */
  datatype Format = Format(render: Inputs -> string, parse: string -> Descriptor)

  datatype Push = Push(desired: Inputs, force: bool, dryRun: bool)

  datatype Phase =
    | Started
    | Decided(seen: Option<string>)
    | Wrote
    | Stopped

  /** The channel's file and how far each pusher has come. */
  datatype Channel = Channel(file: Option<string>, phases: seq<Phase>)

  datatype Act = Read(who: nat, answers: bool) | Put(who: nat)

  /** What a read of the file answers: the text, or nothing. */
  function Answer(s: Channel, answers: bool): Option<string> {
    if answers then s.file else None
  }

  function DecisionOn(f: Format, p: Push, seen: Option<string>): Decision {
    Decide(p.desired, if seen.None? then None else Some(f.parse(seen.value)), p.force)
  }

  /** The contents API: with a blob it replaces exactly that blob, without one it only creates. */
  predicate BlobMatches(file: Option<string>, blob: Option<string>) {
    file == blob
  }

  predicate CanAct(pushes: seq<Push>, s: Channel, e: Act) {
    && |s.phases| == |pushes| && e.who < |s.phases|
    && match e
       case Read(who, _) => s.phases[who] == Started
       case Put(who) => s.phases[who].Decided?
  }

  function Apply(f: Format, pushes: seq<Push>, s: Channel, e: Act): Channel
    requires CanAct(pushes, s, e)
  {
    match e
    case Read(who, answers) =>
      var p, seen := pushes[who], Answer(s, answers);
      s.(phases := s.phases[who := if Writes(DecisionOn(f, p, seen)) && !p.dryRun then Decided(seen) else Stopped])
    case Put(who) =>
      var seen := s.phases[who].seen;
      if BlobMatches(s.file, seen)
      then Channel(Some(f.render(pushes[who].desired)), s.phases[who := Wrote])
      else s.(phases := s.phases[who := Stopped])
  }

  predicate AllStarted(pushes: seq<Push>, s: Channel) {
    |s.phases| == |pushes| && forall i :: 0 <= i < |s.phases| ==> s.phases[i] == Started
  }

  /** A run: a state, and the acts behind it. */
  predicate IsHistory(f: Format, pushes: seq<Push>, s: Channel, acts: seq<Act>)
    decreases acts
  {
    acts != [] ==> CanAct(pushes, s, acts[0]) && IsHistory(f, pushes, Apply(f, pushes, s, acts[0]), acts[1..])
  }

  function AfterActs(f: Format, pushes: seq<Push>, s: Channel, acts: seq<Act>): Channel
    requires IsHistory(f, pushes, s, acts)
    decreases acts
  {
    if acts == [] then s else AfterActs(f, pushes, Apply(f, pushes, s, acts[0]), acts[1..])
  }

  // ---- the script itself -----------------------------------------------------------------------

  /** The file the contents API serves. */
  class Contents {
    var file: Option<string>

    constructor (file: Option<string>)
      ensures this.file == file
    {
      this.file := file;
    }

    method Write(text: string, blob: Option<string>) returns (ok: bool)
      modifies this
      ensures ok == BlobMatches(old(file), blob)
      ensures file == if ok then Some(text) else old(file)
    {
      ok := file == blob;
      if ok {
        file := Some(text);
      }
    }
  }

  /** One run of the script: what it read and decided, then what it wrote. */
  class Pusher {
    const format: Format
    const push: Push
    var phase: Phase

    constructor (format: Format, push: Push)
      ensures this.format == format && this.push == push && phase == Started
    {
      this.format := format;
      this.push := push;
      phase := Started;
    }

    method ReadAndDecide(contents: Contents, answers: bool)
      requires phase == Started
      modifies this
      ensures var seen := if answers then contents.file else None;
        phase == if Writes(DecisionOn(format, push, seen)) && !push.dryRun then Decided(seen) else Stopped
    {
      var remote: Option<string> := None;
      if answers {
        remote := contents.file;
      }
      var decision := DecideChannelWrite(
        push.desired, if remote.None? then None else Some(format.parse(remote.value)), push.force);
      if decision.Refuse? || decision.Conflict? || !Writes(decision) || push.dryRun {
        phase := Stopped;
      } else {
        phase := Decided(remote);
      }
    }

    method PutDescriptor(contents: Contents)
      requires phase.Decided?
      modifies this, contents
      ensures var ok := BlobMatches(old(contents.file), old(phase).seen);
        && phase == (if ok then Wrote else Stopped)
        && contents.file == if ok then Some(format.render(push.desired)) else old(contents.file)
    {
      var descriptor := format.render(push.desired);
      var ok := contents.Write(descriptor, phase.seen);
      phase := if ok then Wrote else Stopped;
    }
  }

  // ---- one write ----------------------------------------------------------------------------------

  function Published(i: Inputs): Descriptor {
    Descriptor(Some(i.version), Some(i.url), Some(i.sha256))
  }

  /** A push whose descriptor can be read back, of a version under consideration. */
  ghost predicate IsPushable(f: Format, versions: iset<string>, p: Push) {
    p.desired.version in versions && f.parse(f.render(p.desired)) == Published(p.desired)
  }

  ghost predicate AllPushable(f: Format, versions: iset<string>, pushes: seq<Push>) {
    forall i :: 0 <= i < |pushes| ==> IsPushable(f, versions, pushes[i])
  }

  predicate IsReadable(f: Format, file: Option<string>) {
    file.Some? && f.parse(file.value).version.Some?
  }

  function VersionOf(f: Format, file: Option<string>): string
    requires IsReadable(f, file)
  {
    f.parse(file.value).version.value
  }

  /** The channel carries one of these versions, or something unreadable, or nothing. */
  ghost predicate Carries(f: Format, versions: iset<string>, file: Option<string>) {
    IsReadable(f, file) ==> VersionOf(f, file) in versions
  }

  /** A pusher that is about to write decided to, on what it saw. */
  predicate DecisionsHold(f: Format, pushes: seq<Push>, s: Channel) {
    && |s.phases| == |pushes|
    && forall i :: 0 <= i < |pushes| && s.phases[i].Decided? ==> Writes(DecisionOn(f, pushes[i], s.phases[i].seen))
  }

  ghost predicate ChannelInv(f: Format, versions: iset<string>, pushes: seq<Push>, s: Channel) {
    DecisionsHold(f, pushes, s) && Carries(f, versions, s.file)
  }

  lemma InitialIsInv(f: Format, versions: iset<string>, pushes: seq<Push>, s: Channel)
    requires AllStarted(pushes, s) && Carries(f, versions, s.file)
    ensures ChannelInv(f, versions, pushes, s)
  {
  }

  lemma ActKeepsInv(f: Format, versions: iset<string>, pushes: seq<Push>, s: Channel, e: Act)
    requires AllPushable(f, versions, pushes) && ChannelInv(f, versions, pushes, s) && CanAct(pushes, s, e)
    ensures ChannelInv(f, versions, pushes, Apply(f, pushes, s, e))
  {
    var t := Apply(f, pushes, s, e);
    assert forall i :: 0 <= i < |pushes| && i != e.who ==> t.phases[i] == s.phases[i];
    assert IsPushable(f, versions, pushes[e.who]);
  }

  /** The channel order of two readable files. */
  function FileOrder(f: Format, was: Option<string>, now: Option<string>): int
    requires IsReadable(f, was) && IsReadable(f, now)
  {
    ChannelOrder(VersionOf(f, was), VersionOf(f, now))
  }

  /** A file is never taken away, an unreadable one stays as it is, and a readable one is followed by a version no older. */
  predicate NoOlder(f: Format, was: Option<string>, now: Option<string>) {
    was.Some? ==>
      if IsReadable(f, was) then IsReadable(f, now) && FileOrder(f, was, now) <= 0 else now == was
  }

  /** The file is the same, or of a strictly later version. */
  predicate Rises(f: Format, was: Option<string>, now: Option<string>) {
    was.Some? && now != was ==> IsReadable(f, was) && IsReadable(f, now) && FileOrder(f, was, now) < 0
  }

  predicate Unforced(pushes: seq<Push>, e: Act) {
    e.Put? && e.who < |pushes| ==> !pushes[e.who].force
  }

  /** The whole change of the file in one act. */
  lemma ActMovesForward(f: Format, versions: iset<string>, pushes: seq<Push>, s: Channel, e: Act)
    requires Linear(versions)
    requires AllPushable(f, versions, pushes) && ChannelInv(f, versions, pushes, s) && CanAct(pushes, s, e)
    ensures var t := Apply(f, pushes, s, e);
      && (t.file != s.file ==> e.Put? && t.file == Some(f.render(pushes[e.who].desired)))
      && NoOlder(f, s.file, t.file)
      && (Unforced(pushes, e) ==> Rises(f, s.file, t.file))
  {
    var p, t := pushes[e.who], Apply(f, pushes, s, e);
    assert IsPushable(f, versions, p);
    if s.file.Some? && t.file != s.file {
      assert s.phases[e.who].seen == s.file;
      WritesOnlyForward(p.desired, f.parse(s.file.value), p.force);
      assert ChannelOrder(VersionOf(f, s.file), p.desired.version) == -ChannelOrder(p.desired.version, VersionOf(f, s.file));
    } else if IsReadable(f, s.file) {
      ChannelOrderIsReflexive(VersionOf(f, s.file));
    }
  }

  lemma LaterIsTransitive(f: Format, versions: iset<string>, a: Option<string>, b: Option<string>, c: Option<string>)
    requires Linear(versions) && Carries(f, versions, a) && Carries(f, versions, b) && Carries(f, versions, c)
    ensures NoOlder(f, a, b) && NoOlder(f, b, c) ==> NoOlder(f, a, c)
    ensures NoOlder(f, b, c) && Rises(f, a, b) && a != b && a.Some? ==> Rises(f, a, c) && c != a
    ensures Rises(f, b, c) && Rises(f, a, b) ==> Rises(f, a, c)
  {
    if IsReadable(f, a) && IsReadable(f, b) && IsReadable(f, c) {
      var x, y, z := VersionOf(f, a), VersionOf(f, b), VersionOf(f, c);
      LinearChains(versions, x, y, z);
      ChannelOrderIsReflexive(x);
    }
  }

  lemma LinearChains(versions: iset<string>, x: string, y: string, z: string)
    requires Linear(versions) && x in versions && y in versions && z in versions
    ensures ChannelOrder(x, y) <= 0 && ChannelOrder(y, z) <= 0 ==> ChannelOrder(x, z) <= 0
    ensures ChannelOrder(x, y) < 0 && ChannelOrder(y, z) <= 0 ==> ChannelOrder(x, z) < 0
    ensures ChannelOrder(x, y) <= 0 && ChannelOrder(y, z) < 0 ==> ChannelOrder(x, z) < 0
  {
    if ChannelOrder(x, y) <= 0 && ChannelOrder(y, z) <= 0 && ChannelOrder(x, z) == 0 {
      assert ChannelOrder(z, x) <= 0;
      assert ChannelOrder(y, x) <= 0 && ChannelOrder(z, y) <= 0;
    }
  }

  // ---- whole runs ---------------------------------------------------------------------------------------

  /** Whatever the interleaving, the published version never goes down. */
  lemma {:induction false} VersionNeverFalls(f: Format, versions: iset<string>, pushes: seq<Push>, s: Channel, acts: seq<Act>)
    requires Linear(versions) && AllPushable(f, versions, pushes) && ChannelInv(f, versions, pushes, s)
    requires IsHistory(f, pushes, s, acts)
    ensures ChannelInv(f, versions, pushes, AfterActs(f, pushes, s, acts))
    ensures NoOlder(f, s.file, AfterActs(f, pushes, s, acts).file)
    decreases acts
  {
    if acts == [] {
      if IsReadable(f, s.file) {
        ChannelOrderIsReflexive(VersionOf(f, s.file));
      }
    } else {
      var t := Apply(f, pushes, s, acts[0]);
      ActKeepsInv(f, versions, pushes, s, acts[0]);
      ActMovesForward(f, versions, pushes, s, acts[0]);
      VersionNeverFalls(f, versions, pushes, t, acts[1..]);
      LaterIsTransitive(f, versions, s.file, t.file, AfterActs(f, pushes, t, acts[1..]).file);
    }
  }

  predicate AllUnforced(pushes: seq<Push>, acts: seq<Act>) {
    forall i :: 0 <= i < |acts| ==> Unforced(pushes, acts[i])
  }

  /** As long as no forced run writes, the file changes only to strictly later versions. */
  lemma {:induction false} FileOnlyRises(f: Format, versions: iset<string>, pushes: seq<Push>, s: Channel, acts: seq<Act>)
    requires Linear(versions) && AllPushable(f, versions, pushes) && ChannelInv(f, versions, pushes, s)
    requires IsHistory(f, pushes, s, acts) && AllUnforced(pushes, acts)
    ensures Rises(f, s.file, AfterActs(f, pushes, s, acts).file)
    decreases acts
  {
    if acts != [] {
      var t := Apply(f, pushes, s, acts[0]);
      ActKeepsInv(f, versions, pushes, s, acts[0]);
      ActMovesForward(f, versions, pushes, s, acts[0]);
      FileOnlyRises(f, versions, pushes, t, acts[1..]);
      VersionNeverFalls(f, versions, pushes, t, acts[1..]);
      LaterIsTransitive(f, versions, s.file, t.file, AfterActs(f, pushes, t, acts[1..]).file);
    }
  }

  /**
   The bytes of one version change only by a forced run: when two moments show versions the
   order does not tell apart and no forced run wrote between them, they show the same file.
   */
  lemma SameVersionSameBytes(f: Format, versions: iset<string>, pushes: seq<Push>, s: Channel, acts: seq<Act>)
    requires Linear(versions) && AllPushable(f, versions, pushes) && ChannelInv(f, versions, pushes, s)
    requires IsHistory(f, pushes, s, acts) && AllUnforced(pushes, acts) && IsReadable(f, s.file)
    ensures var now := AfterActs(f, pushes, s, acts).file;
      IsReadable(f, now) && (FileOrder(f, s.file, now) == 0 <==> now == s.file)
  {
    FileOnlyRises(f, versions, pushes, s, acts);
    VersionNeverFalls(f, versions, pushes, s, acts);
    ChannelOrderIsReflexive(VersionOf(f, s.file));
  }

  /** A file that an unforced run replaced never comes back, nor does its version, whatever is forced later. */
  lemma OverwrittenIsGone(f: Format, versions: iset<string>, pushes: seq<Push>, s: Channel, e: Act, acts: seq<Act>)
    requires Linear(versions) && AllPushable(f, versions, pushes) && ChannelInv(f, versions, pushes, s)
    requires CanAct(pushes, s, e) && Unforced(pushes, e) && s.file.Some? && Apply(f, pushes, s, e).file != s.file
    requires IsHistory(f, pushes, Apply(f, pushes, s, e), acts)
    ensures var now := AfterActs(f, pushes, Apply(f, pushes, s, e), acts).file;
      IsReadable(f, s.file) && IsReadable(f, now) && FileOrder(f, s.file, now) < 0 && now != s.file
  {
    var m := Apply(f, pushes, s, e);
    ActKeepsInv(f, versions, pushes, s, e);
    ActMovesForward(f, versions, pushes, s, e);
    VersionNeverFalls(f, versions, pushes, m, acts);
    LaterIsTransitive(f, versions, s.file, m.file, AfterActs(f, pushes, m, acts).file);
  }

  /** Of the pushers that read the same file, only the first unforced one to write gets through. */
  lemma SlowPusherLoses(f: Format, versions: iset<string>, pushes: seq<Push>, s: Channel, e: Act, acts: seq<Act>, slow: nat)
    requires Linear(versions) && AllPushable(f, versions, pushes) && ChannelInv(f, versions, pushes, s)
    requires CanAct(pushes, s, e) && Unforced(pushes, e) && s.file.Some? && Apply(f, pushes, s, e).file != s.file
    requires IsHistory(f, pushes, Apply(f, pushes, s, e), acts)
    requires var t := AfterActs(f, pushes, Apply(f, pushes, s, e), acts);
      slow < |t.phases| && t.phases[slow] == Decided(s.file) && CanAct(pushes, t, Put(slow))
    ensures var t := AfterActs(f, pushes, Apply(f, pushes, s, e), acts);
      && Apply(f, pushes, t, Put(slow)).file == t.file
      && Apply(f, pushes, t, Put(slow)).phases[slow] == Stopped
  {
    OverwrittenIsGone(f, versions, pushes, s, e, acts);
  }

  /** A file nobody can read stays, whoever pushes: the release stops and a human looks at it. */
  lemma UnreadableStays(f: Format, versions: iset<string>, pushes: seq<Push>, s: Channel, acts: seq<Act>)
    requires Linear(versions) && AllPushable(f, versions, pushes) && ChannelInv(f, versions, pushes, s)
    requires IsHistory(f, pushes, s, acts) && s.file.Some? && !IsReadable(f, s.file)
    ensures AfterActs(f, pushes, s, acts).file == s.file
  {
    VersionNeverFalls(f, versions, pushes, s, acts);
  }

  // ---- runs that come back -----------------------------------------------------------------------------

  /** The file changes, and later it is back at what it was. */
  predicate ComesBack(f: Format, pushes: seq<Push>, s: Channel, before: seq<Act>, behind: seq<Act>) {
    && IsHistory(f, pushes, s, before) && IsHistory(f, pushes, s, before + behind)
    && AfterActs(f, pushes, s, before).file != s.file && AfterActs(f, pushes, s, before + behind).file == s.file
  }

  lemma {:induction false} HistorySplits(f: Format, pushes: seq<Push>, s: Channel, before: seq<Act>, behind: seq<Act>)
    requires IsHistory(f, pushes, s, before) && IsHistory(f, pushes, s, before + behind)
    ensures IsHistory(f, pushes, AfterActs(f, pushes, s, before), behind)
    ensures AfterActs(f, pushes, s, before + behind) == AfterActs(f, pushes, AfterActs(f, pushes, s, before), behind)
    decreases before
  {
    if before == [] {
      assert before + behind == behind;
    } else {
      assert (before + behind)[1..] == before[1..] + behind;
      HistorySplits(f, pushes, Apply(f, pushes, s, before[0]), before[1..], behind);
    }
  }

  /** The acts of one pusher that reads and writes with nobody in between. */
  function Alone(who: nat): seq<Act> {
    [Read(who, true), Put(who)]
  }

  /** One pusher from its read to its write. */
  lemma PushAlone(f: Format, pushes: seq<Push>, s: Channel, who: nat, rest: seq<Act>)
    requires |s.phases| == |pushes| && who < |pushes| && s.phases[who] == Started && !pushes[who].dryRun
    requires Writes(DecisionOn(f, pushes[who], s.file))
    ensures var t := Channel(Some(f.render(pushes[who].desired)), s.phases[who := Wrote]);
      && IsHistory(f, pushes, s, Alone(who) + rest) == IsHistory(f, pushes, t, rest)
      && (IsHistory(f, pushes, t, rest) ==>
            AfterActs(f, pushes, s, Alone(who) + rest) == AfterActs(f, pushes, t, rest))
  {
    var acts := Alone(who) + rest;
    var m := Apply(f, pushes, s, Read(who, true));
    assert m.file == s.file && m.phases[who] == Decided(s.file);
    assert acts[1..] == [Put(who)] + rest && acts[1..][1..] == rest;
    assert m.phases[who := Wrote] == s.phases[who := Wrote];
    assert Apply(f, pushes, m, Put(who)) == Channel(Some(f.render(pushes[who].desired)), s.phases[who := Wrote]);
  }

  /** One push away and one back. */
  lemma TwoPushesComeBack(f: Format, p: Push, q: Push, file: Option<string>)
    requires !p.dryRun && !q.dryRun && Some(f.render(p.desired)) != file && Some(f.render(q.desired)) == file
    requires Writes(DecisionOn(f, p, file)) && Writes(DecisionOn(f, q, Some(f.render(p.desired))))
    ensures ComesBack(f, [p, q], Channel(file, [Started, Started]), Alone(0), Alone(1))
  {
    var pushes, s := [p, q], Channel(file, [Started, Started]);
    var t := Channel(Some(f.render(p.desired)), [Wrote, Started]);
    assert s.phases[0 := Wrote] == t.phases;
    assert Alone(1) + [] == Alone(1);
    PushAlone(f, pushes, t, 1, []);
    OneAway(f, pushes, s, t, 0, Alone(1));
  }

  /** One on, and one more. */
  lemma TwoMore(f: Format, pushes: seq<Push>, t: Channel)
    requires |pushes| == 3 && t.phases == [Wrote, Started, Started] && !pushes[1].dryRun && !pushes[2].dryRun
    requires Writes(DecisionOn(f, pushes[1], t.file)) && Writes(DecisionOn(f, pushes[2], Some(f.render(pushes[1].desired))))
    ensures IsHistory(f, pushes, t, Alone(1) + Alone(2))
    ensures AfterActs(f, pushes, t, Alone(1) + Alone(2)).file == Some(f.render(pushes[2].desired))
  {
    var u := Channel(Some(f.render(pushes[1].desired)), [Wrote, Wrote, Started]);
    assert t.phases[1 := Wrote] == u.phases && Alone(2) + [] == Alone(2);
    PushAlone(f, pushes, u, 2, []);
    PushAlone(f, pushes, t, 1, Alone(2));
  }

  /** One push away, one on, and one back. */
  lemma ThreeInTurn(f: Format, pushes: seq<Push>, s: Channel)
    requires |pushes| == 3 && s.phases == [Started, Started, Started]
    requires !pushes[0].dryRun && !pushes[1].dryRun && !pushes[2].dryRun
    requires Some(f.render(pushes[0].desired)) != s.file && Some(f.render(pushes[2].desired)) == s.file
    requires Writes(DecisionOn(f, pushes[0], s.file)) && Writes(DecisionOn(f, pushes[1], Some(f.render(pushes[0].desired))))
    requires Writes(DecisionOn(f, pushes[2], Some(f.render(pushes[1].desired))))
    ensures ComesBack(f, pushes, s, Alone(0), Alone(1) + Alone(2))
  {
    var t := Channel(Some(f.render(pushes[0].desired)), s.phases[0 := Wrote]);
    assert t.phases == [Wrote, Started, Started];
    TwoMore(f, pushes, t);
    OneAway(f, pushes, s, t, 0, Alone(1) + Alone(2));
  }

  /** A push away, and acts that lead back. */
  lemma OneAway(f: Format, pushes: seq<Push>, s: Channel, t: Channel, who: nat, rest: seq<Act>)
    requires |s.phases| == |pushes| && who < |pushes| && s.phases[who] == Started && !pushes[who].dryRun
    requires Writes(DecisionOn(f, pushes[who], s.file)) && t.file != s.file
    requires t == Channel(Some(f.render(pushes[who].desired)), s.phases[who := Wrote])
    requires IsHistory(f, pushes, t, rest) && AfterActs(f, pushes, t, rest).file == s.file
    ensures ComesBack(f, pushes, s, Alone(who), rest)
  {
    assert Alone(who) + [] == Alone(who);
    PushAlone(f, pushes, s, who, []);
    PushAlone(f, pushes, s, who, rest);
  }

  /** A push of one of these versions whose arguments the script accepts, neither forced nor dry. */
  ghost predicate IsOrdinary(accepted: Inputs -> bool, versions: iset<string>, p: Push) {
    accepted(p.desired) && !p.force && !p.dryRun && p.desired.version in versions
  }

  ghost predicate AreOrdinary(accepted: Inputs -> bool, versions: iset<string>, pushes: seq<Push>) {
    forall i :: 0 <= i < |pushes| ==> IsOrdinary(accepted, versions, pushes[i])
  }

  /** Some run of ordinary pushes, from the descriptor of one of these versions, comes back to that descriptor. */
  ghost predicate SomeRunComesBack(f: Format, accepted: Inputs -> bool, versions: iset<string>) {
    exists i: Inputs, pushes, s, before, behind ::
      && accepted(i) && i.version in versions && AreOrdinary(accepted, versions, pushes)
      && AllStarted(pushes, s) && s.file == Some(f.render(i))
      && ComesBack(f, pushes, s, before, behind)
  }

  lemma OneRunIsSome(f: Format, accepted: Inputs -> bool, versions: iset<string>, i: Inputs, pushes: seq<Push>, s: Channel,
                     before: seq<Act>, behind: seq<Act>)
    requires accepted(i) && i.version in versions && AreOrdinary(accepted, versions, pushes)
    requires AllStarted(pushes, s) && s.file == Some(f.render(i)) && ComesBack(f, pushes, s, before, behind)
    ensures SomeRunComesBack(f, accepted, versions)
  {
  }

  lemma TwoAreOrdinary(accepted: Inputs -> bool, versions: iset<string>, p: Push, q: Push)
    requires IsOrdinary(accepted, versions, p) && IsOrdinary(accepted, versions, q)
    ensures AreOrdinary(accepted, versions, [p, q])
  {
  }

  lemma TwoStarted(p: Push, q: Push, file: Option<string>)
    ensures AllStarted([p, q], Channel(file, [Started, Started]))
  {
  }

  lemma TwoComeBack(f: Format, accepted: Inputs -> bool, versions: iset<string>, p: Push, q: Push)
    requires IsOrdinary(accepted, versions, p) && IsOrdinary(accepted, versions, q)
    requires f.render(p.desired) != f.render(q.desired)
    requires Writes(DecisionOn(f, p, Some(f.render(q.desired)))) && Writes(DecisionOn(f, q, Some(f.render(p.desired))))
    ensures SomeRunComesBack(f, accepted, versions)
  {
    var file := Some(f.render(q.desired));
    TwoPushesComeBack(f, p, q, file);
    TwoAreOrdinary(accepted, versions, p, q);
    TwoStarted(p, q, file);
    OneRunIsSome(f, accepted, versions, q.desired, [p, q], Channel(file, [Started, Started]), Alone(0), Alone(1));
  }

  lemma ThreeAreOrdinary(accepted: Inputs -> bool, versions: iset<string>, p: Push, q: Push, r: Push)
    requires IsOrdinary(accepted, versions, p) && IsOrdinary(accepted, versions, q) && IsOrdinary(accepted, versions, r)
    ensures AreOrdinary(accepted, versions, [p, q, r])
  {
  }

  lemma ThreeStarted(p: Push, q: Push, r: Push, file: Option<string>)
    ensures AllStarted([p, q, r], Channel(file, [Started, Started, Started]))
  {
  }

  lemma ThreeComeBack(f: Format, accepted: Inputs -> bool, versions: iset<string>, p: Push, q: Push, r: Push)
    requires IsOrdinary(accepted, versions, p) && IsOrdinary(accepted, versions, q) && IsOrdinary(accepted, versions, r)
    requires f.render(p.desired) != f.render(r.desired) && Writes(DecisionOn(f, p, Some(f.render(r.desired))))
    requires Writes(DecisionOn(f, q, Some(f.render(p.desired)))) && Writes(DecisionOn(f, r, Some(f.render(q.desired))))
    ensures SomeRunComesBack(f, accepted, versions)
  {
    var file := Some(f.render(r.desired));
    var pushes, s := [p, q, r], Channel(file, [Started, Started, Started]);
    ThreeInTurn(f, pushes, s);
    ThreeAreOrdinary(accepted, versions, p, q, r);
    ThreeStarted(p, q, r, file);
    OneRunIsSome(f, accepted, versions, r.desired, pushes, s, Alone(0), Alone(1) + Alone(2));
  }
}
