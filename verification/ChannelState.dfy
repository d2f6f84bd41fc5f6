/**
 Whether to write a descriptor into a channel: `scripts/channel-state.ts`.
 */
module ChannelState {
  import opened Wrappers
  import opened Text
  import opened Versions
  import opened VersionOrder
  import opened PackageManifests
  import opened ManifestReadBack

  datatype Difference = UrlDiffers(published: Option<string>) | HashDiffers(published: Option<string>)

  datatype Decision =
    | Publish
    | Update(from: string)
    | Noop
    | Conflict(differences: seq<Difference>, unreadable: bool)
    | Refuse

  predicate Writes(d: Decision) {
    d.Publish? || d.Update?
  }

  function Differences(desired: Inputs, remote: Descriptor): seq<Difference> {
    (if remote.url != Some(desired.url) then [UrlDiffers(remote.url)] else [])
    + (if remote.sha256 != Some(desired.sha256) then [HashDiffers(remote.sha256)] else [])
  }

  function Decide(desired: Inputs, remote: Option<Descriptor>, force: bool): Decision {
    if remote.None? then Publish
    else if remote.value.version.None? then Conflict([], true)
    else
      var published := remote.value.version.value;
      var ordering := ChannelOrder(desired.version, published);
      if ordering > 0 then Update(published)
      else if ordering < 0 then Refuse
      else
        var differences := Differences(desired, remote.value);
        if differences == [] then Noop
        else if force then Update(published)
        else Conflict(differences, false)
  }

  method DecideChannelWrite(desired: Inputs, remote: Option<Descriptor>, force: bool) returns (decision: Decision)
    ensures decision == Decide(desired, remote, force)
  {
    if remote.None? {
      return Publish;
    }
    if remote.value.version.None? {
      return Conflict([], true);
    }
    var published := remote.value.version.value;
    var ordering := CompareChannelVersions(desired.version, published);
    if ordering > 0 {
      return Update(published);
    }
    if ordering < 0 {
      return Refuse;
    }
    var differences := [];
    if remote.value.url != Some(desired.url) {
      differences := differences + [UrlDiffers(remote.value.url)];
    }
    if remote.value.sha256 != Some(desired.sha256) {
      differences := differences + [HashDiffers(remote.value.sha256)];
    }
    if differences == [] {
      return Noop;
    }
    return if force then Update(published) else Conflict(differences, false);
  }

  /** A write moves the version up, or replaces the bytes of one version on purpose. */
  lemma WritesOnlyForward(desired: Inputs, remote: Descriptor, force: bool)
    requires remote.version.Some?
    ensures Writes(Decide(desired, Some(remote), force)) <==>
      || ChannelOrder(desired.version, remote.version.value) > 0
      || (force && ChannelOrder(desired.version, remote.version.value) == 0
          && (remote.url != Some(desired.url) || remote.sha256 != Some(desired.sha256)))
    ensures Decide(desired, Some(remote), force).Noop? <==>
      && ChannelOrder(desired.version, remote.version.value) == 0
      && remote.url == Some(desired.url) && remote.sha256 == Some(desired.sha256)
    ensures Decide(desired, Some(remote), force).Refuse? <==> ChannelOrder(desired.version, remote.version.value) < 0
  {
  }

  /** Deciding again on the formula just written has nothing to do, with or without `force`. */
  lemma WrittenFormulaIsNoop(node: string, desired: Inputs, force: bool)
    requires IsVersion(desired.version) && IsSha256(desired.sha256) && IsLine(node)
    requires CheckDescriptorUrl(desired.url, desired.version, None).None?
    ensures RenderHomebrewFormula(node, desired).Ok?
    ensures Decide(desired, Some(ParseHomebrew(RenderHomebrewFormula(node, desired).value)), force) == Noop
  {
    HomebrewReadsBack(node, desired);
    SameIsNoop(desired, force);
  }

  lemma SameIsNoop(desired: Inputs, force: bool)
    ensures Decide(desired, Some(Descriptor(Some(desired.version), Some(desired.url), Some(desired.sha256))), force) == Noop
  {
    ChannelOrderIsReflexive(desired.version);
  }
}
