/**
 * What the specification functions of the channel lookup mean: which
 * template is picked, when the lookup fails and with which error, how the
 * whole module set resolves, and when a resolved template counts as
 * outdated.
 */
module ChannelProofs {
  import opened Wrappers
  import Api
  import Semver
  import opened Channel

  // ---------------------------------------------------------------------
  // Candidates

  /**
   * The candidate list holds exactly the catalog's candidates, each as often
   * as it is listed: a template matching by several identities still
   * contributes one entry.
   */
  lemma {:induction false} CandidatesCountEachEntryOnce(items: seq<Api.ModuleTemplate>, id: string, ch: string)
    ensures forall t :: multiset(Candidates(items, id, ch))[t]
                        == if IsCandidate(t, id, ch) then multiset(items)[t] else 0
  {
    if items != [] {
      var init, last := items[..|items| - 1], items[|items| - 1];
      CandidatesCountEachEntryOnce(init, id, ch);
      assert items == init + [last];
    }
  }

  /** Every candidate is a catalog entry that is in the channel and matches the identifier. */
  lemma CandidatesAreMatchingEntries(items: seq<Api.ModuleTemplate>, id: string, ch: string)
    ensures forall t :: t in Candidates(items, id, ch) ==> t in items && IsCandidate(t, id, ch)
  {
    CandidatesCountEachEntryOnce(items, id, ch);
    forall t | t in Candidates(items, id, ch)
      ensures t in items && IsCandidate(t, id, ch)
    {
      assert multiset(Candidates(items, id, ch))[t] > 0;
    }
  }

  /** There is no candidate exactly when no catalog entry is one. */
  lemma {:induction false} NoCandidatesIff(items: seq<Api.ModuleTemplate>, id: string, ch: string)
    ensures Candidates(items, id, ch) == [] <==> forall i :: 0 <= i < |items| ==> !IsCandidate(items[i], id, ch)
  {
    if items != [] {
      var init := items[..|items| - 1];
      NoCandidatesIff(init, id, ch);
      assert forall i :: 0 <= i < |init| ==> init[i] == items[i];
    }
  }

  /** There is more than one candidate exactly when two distinct catalog positions hold candidates. */
  lemma {:induction false} SeveralCandidatesIff(items: seq<Api.ModuleTemplate>, id: string, ch: string)
    ensures |Candidates(items, id, ch)| > 1 <==>
      exists i, j :: 0 <= i < j < |items| && IsCandidate(items[i], id, ch) && IsCandidate(items[j], id, ch)
  {
    if items != [] {
      var n := |items| - 1;
      var init := items[..n];
      SeveralCandidatesIff(init, id, ch);
      NoCandidatesIff(init, id, ch);
      assert forall i :: 0 <= i < |init| ==> init[i] == items[i];
      if |Candidates(items, id, ch)| > 1 && |Candidates(init, id, ch)| <= 1 {
        var i :| 0 <= i < |init| && IsCandidate(init[i], id, ch);
        assert IsCandidate(items[i], id, ch) && IsCandidate(items[n], id, ch);
      }
      if exists i, j :: 0 <= i < j < |items| && IsCandidate(items[i], id, ch) && IsCandidate(items[j], id, ch) {
        var i, j :| 0 <= i < j < |items| && IsCandidate(items[i], id, ch) && IsCandidate(items[j], id, ch);
        if j < n {
          assert IsCandidate(init[i], id, ch) && IsCandidate(init[j], id, ch);
        } else {
          assert IsCandidate(init[i], id, ch);
        }
      }
    }
  }

  // ---------------------------------------------------------------------
  // Descriptor failures

  /** The scan hits no descriptor failure exactly when every descriptor it fetches decodes. */
  lemma {:induction false} NoDescriptorFailureIff(items: seq<Api.ModuleTemplate>, id: string, ch: string)
    ensures FirstDescriptorFailure(items, id, ch).None? <==>
      forall i :: 0 <= i < |items| && DescriptorFetched(items[i], id, ch) ==> items[i].descriptor.Ok?
  {
    if items != [] {
      NoDescriptorFailureIff(items[1..], id, ch);
      assert forall i :: 1 <= i < |items| ==> items[i] == items[1..][i - 1];
    }
  }

  /** The failure reported is that of the first fetched descriptor that does not decode. */
  lemma {:induction false} FirstDescriptorFailureAt(items: seq<Api.ModuleTemplate>, id: string, ch: string, k: nat)
    requires k < |items|
    requires DescriptorFetched(items[k], id, ch) && items[k].descriptor.Err?
    requires forall i :: 0 <= i < k && DescriptorFetched(items[i], id, ch) ==> items[i].descriptor.Ok?
    ensures FirstDescriptorFailure(items, id, ch) == Some(items[k].descriptor.error)
  {
    if k > 0 {
      assert forall i :: 0 <= i < k - 1 ==> items[1..][i] == items[i + 1];
      FirstDescriptorFailureAt(items[1..], id, ch, k - 1);
    }
  }

  // ---------------------------------------------------------------------
  // getTemplate

  predicate DescriptorsDecode(items: seq<Api.ModuleTemplate>, id: string, ch: string) {
    forall i :: 0 <= i < |items| && DescriptorFetched(items[i], id, ch) ==> items[i].descriptor.Ok?
  }

  /** A successful match is the one catalog position holding a candidate. */
  lemma SelectPicksTheOnlyCandidate(lookup: TemplateLookup, ch: string, t: Api.ModuleTemplate)
    requires lookup.Select(ch) == Ok(t)
    ensures lookup.reader.Listed?
    ensures exists j :: (0 <= j < |lookup.reader.items| && lookup.reader.items[j] == t
      && forall i :: 0 <= i < |lookup.reader.items| ==>
           (IsCandidate(lookup.reader.items[i], lookup.moduleRef.name, ch) <==> i == j))
  {
    var items, id := lookup.reader.items, lookup.moduleRef.name;
    var cs := Candidates(items, id, ch);
    assert |cs| == 1 && t == cs[0];
    CandidatesAreMatchingEntries(items, id, ch);
    assert t in cs;
    SeveralCandidatesIff(items, id, ch);
    var j :| 0 <= j < |items| && items[j] == t;
    assert IsCandidate(items[j], id, ch);
    assert !exists a, b :: 0 <= a < b < |items| && IsCandidate(items[a], id, ch) && IsCandidate(items[b], id, ch);
  }

  /** A catalog with exactly one candidate and readable descriptors yields that candidate. */
  lemma SelectFindsUniqueCandidate(lookup: TemplateLookup, ch: string, j: nat)
    requires lookup.reader.Listed? && j < |lookup.reader.items|
    requires DescriptorsDecode(lookup.reader.items, lookup.moduleRef.name, ch)
    requires forall i :: 0 <= i < |lookup.reader.items| ==>
               (IsCandidate(lookup.reader.items[i], lookup.moduleRef.name, ch) <==> i == j)
    ensures lookup.Select(ch) == Ok(lookup.reader.items[j])
  {
    var items, id := lookup.reader.items, lookup.moduleRef.name;
    NoDescriptorFailureIff(items, id, ch);
    NoCandidatesIff(items, id, ch);
    SeveralCandidatesIff(items, id, ch);
    CandidatesAreMatchingEntries(items, id, ch);
    var cs := Candidates(items, id, ch);
    assert IsCandidate(items[j], id, ch);
    assert !exists a, b :: 0 <= a < b < |items| && IsCandidate(items[a], id, ch) && IsCandidate(items[b], id, ch);
    assert |cs| == 1;
    assert cs[0] in cs;
    var k :| 0 <= k < |items| && items[k] == cs[0];
    assert IsCandidate(items[k], id, ch);
  }

  /**
   * With readable descriptors, two candidates make the match ambiguous; the
   * error names every listed template, candidate or not, in catalog order.
   */
  lemma SelectRejectsAmbiguity(lookup: TemplateLookup, ch: string, i: nat, j: nat)
    requires lookup.reader.Listed? && i < j < |lookup.reader.items|
    requires DescriptorsDecode(lookup.reader.items, lookup.moduleRef.name, ch)
    requires IsCandidate(lookup.reader.items[i], lookup.moduleRef.name, ch)
    requires IsCandidate(lookup.reader.items[j], lookup.moduleRef.name, ch)
    ensures lookup.Select(ch).Err?
    ensures var e := lookup.Select(ch).error;
      && e.TemplateNotIdentified?
      && e.moduleName == lookup.moduleRef.name
      && |e.candidates| == |lookup.reader.items|
      && forall k :: 0 <= k < |lookup.reader.items| ==> e.candidates[k] == lookup.reader.items[k].name
  {
    NoDescriptorFailureIff(lookup.reader.items, lookup.moduleRef.name, ch);
    SeveralCandidatesIff(lookup.reader.items, lookup.moduleRef.name, ch);
  }

  /** With readable descriptors and no candidate, the lookup reports the channel it searched. */
  lemma SelectReportsMissingTemplate(lookup: TemplateLookup, ch: string)
    requires lookup.reader.Listed?
    requires DescriptorsDecode(lookup.reader.items, lookup.moduleRef.name, ch)
    requires forall i :: 0 <= i < |lookup.reader.items| ==> !IsCandidate(lookup.reader.items[i], lookup.moduleRef.name, ch)
    ensures lookup.Select(ch) == Err(NoTemplatesInListResult(ch))
  {
    NoDescriptorFailureIff(lookup.reader.items, lookup.moduleRef.name, ch);
    NoCandidatesIff(lookup.reader.items, lookup.moduleRef.name, ch);
  }

  /**
   * A descriptor that does not decode aborts the whole match, unless an
   * earlier fetched descriptor already did. Every template outside the
   * desired channel has its descriptor fetched, so this applies to them too.
   */
  lemma SelectAbortsOnBadDescriptor(lookup: TemplateLookup, ch: string, k: nat)
    requires lookup.reader.Listed? && k < |lookup.reader.items|
    requires DescriptorFetched(lookup.reader.items[k], lookup.moduleRef.name, ch)
    requires lookup.reader.items[k].descriptor.Err?
    requires DescriptorsDecode(lookup.reader.items[..k], lookup.moduleRef.name, ch)
    ensures lookup.Select(ch) == Err(InvalidDescriptor(lookup.reader.items[k].descriptor.error))
  {
    var items := lookup.reader.items;
    assert forall i :: 0 <= i < k ==> items[..k][i] == items[i];
    FirstDescriptorFailureAt(items, lookup.moduleRef.name, ch, k);
  }

  // ---------------------------------------------------------------------
  // WithContext

  /**
   * A resolved template is a candidate in the desired channel, so it never
   * has an empty channel and the empty-channel rejection never fires.
   */
  lemma ResolveIsSelectInDesiredChannel(lookup: TemplateLookup)
    ensures lookup.Resolve() == lookup.Select(lookup.DesiredChannel())
    ensures lookup.Resolve().Ok? ==>
      var t := lookup.Resolve().value;
      && t in lookup.reader.items
      && IsCandidate(t, lookup.moduleRef.name, lookup.DesiredChannel())
      && t.channel == lookup.DesiredChannel() && t.channel != ""
  {
    var ch := lookup.DesiredChannel();
    if lookup.Select(ch).Ok? {
      CandidatesAreMatchingEntries(lookup.reader.items, lookup.moduleRef.name, ch);
      assert lookup.Select(ch).value in Candidates(lookup.reader.items, lookup.moduleRef.name, ch);
    }
  }

  // ---------------------------------------------------------------------
  // GetTemplates

  /** The whole set resolves exactly when every declared module resolves. */
  lemma {:induction false} ResolveAllSucceedsIff(local: Listing, remote: Listing, kyma: Api.Kyma, modules: seq<Api.Module>)
    ensures ResolveAll(local, remote, kyma, modules).Ok? <==>
      forall i :: 0 <= i < |modules| ==> ResolveModule(local, remote, kyma, modules[i]).Ok?
  {
    if modules != [] {
      var init := modules[..|modules| - 1];
      ResolveAllSucceedsIff(local, remote, kyma, init);
      assert forall i :: 0 <= i < |init| ==> init[i] == modules[i];
    }
  }

  /** A failure is the error of the first declared module that does not resolve. */
  lemma {:induction false} ResolveAllFailsFast(local: Listing, remote: Listing, kyma: Api.Kyma, modules: seq<Api.Module>)
    requires ResolveAll(local, remote, kyma, modules).Err?
    ensures exists k :: (0 <= k < |modules|
      && (forall i :: 0 <= i < k ==> ResolveModule(local, remote, kyma, modules[i]).Ok?)
      && ResolveModule(local, remote, kyma, modules[k]) == Err(ResolveAll(local, remote, kyma, modules).error))
  {
    var n := |modules| - 1;
    var init := modules[..n];
    assert forall i :: 0 <= i < |init| ==> init[i] == modules[i];
    if ResolveAll(local, remote, kyma, init).Err? {
      ResolveAllFailsFast(local, remote, kyma, init);
      var k :| 0 <= k < |init|
        && (forall i :: 0 <= i < k ==> ResolveModule(local, remote, kyma, init[i]).Ok?)
        && ResolveModule(local, remote, kyma, init[k]) == Err(ResolveAll(local, remote, kyma, init).error);
      assert ResolveModule(local, remote, kyma, modules[k]) == Err(ResolveAll(local, remote, kyma, modules).error);
    } else {
      ResolveAllSucceedsIff(local, remote, kyma, init);
      assert forall i :: 0 <= i < n ==> ResolveModule(local, remote, kyma, modules[i]).Ok?;
    }
  }

  /**
   * Once every module declared before it resolves, a remote reference with
   * sync disabled fails the whole set with a configuration error naming the
   * module.
   */
  lemma RemoteReferenceNeedsSync(local: Listing, remote: Listing, kyma: Api.Kyma, k: nat)
    requires k < |kyma.modules| && !kyma.syncEnabled
    requires kyma.modules[k].remoteModuleTemplateRef != ""
    requires forall i :: 0 <= i < k ==> ResolveModule(local, remote, kyma, kyma.modules[i]).Ok?
    ensures ResolveAll(local, remote, kyma, kyma.modules) == Err(InvalidRemoteModuleConfiguration(kyma.modules[k].name))
  {
    var ms := kyma.modules;
    assert forall i :: 0 <= i < k ==> ms[..k][i] == ms[i];
    ResolveAllSucceedsIff(local, remote, kyma, ms[..k]);
    var found := ResolveAll(local, remote, kyma, ms[..k]).value;
    ResolveAllNext(local, remote, kyma, ms, k, found);
    ResolveAllStopsAtFailure(local, remote, kyma, ms, k + 1);
  }

  /** On success the map has one key per declared module: its local name, never a remote reference. */
  lemma {:induction false} ResolveAllKeys(local: Listing, remote: Listing, kyma: Api.Kyma, modules: seq<Api.Module>)
    requires ResolveAll(local, remote, kyma, modules).Ok?
    ensures ResolveAll(local, remote, kyma, modules).value.Keys == set i | 0 <= i < |modules| :: modules[i].name
  {
    if modules != [] {
      var n := |modules| - 1;
      var init := modules[..n];
      ResolveAllKeys(local, remote, kyma, init);
      assert forall i :: 0 <= i < n ==> init[i] == modules[i];
      assert (set i | 0 <= i < |modules| :: modules[i].name)
          == (set i | 0 <= i < n :: init[i].name) + {modules[n].name};
    }
  }

  /** Each key maps to the lookup of the last module declared under that name. */
  lemma {:induction false} ResolveAllEntry(local: Listing, remote: Listing, kyma: Api.Kyma, modules: seq<Api.Module>, k: nat)
    requires ResolveAll(local, remote, kyma, modules).Ok? && k < |modules|
    requires forall j :: k < j < |modules| ==> modules[j].name != modules[k].name
    ensures ResolveModule(local, remote, kyma, modules[k]).Ok?
    ensures modules[k].name in ResolveAll(local, remote, kyma, modules).value
    ensures ResolveAll(local, remote, kyma, modules).value[modules[k].name]
         == ResolveModule(local, remote, kyma, modules[k]).value
  {
    ResolveAllSucceedsIff(local, remote, kyma, modules);
    var n := |modules| - 1;
    var init := modules[..n];
    if k < n {
      assert init[k] == modules[k];
      ResolveAllEntry(local, remote, kyma, init, k);
    }
  }

  /** Every template in a successful resolution carries a non-empty channel. */
  lemma {:induction false} ResolvedChannelsAreNonEmpty(local: Listing, remote: Listing, kyma: Api.Kyma, modules: seq<Api.Module>)
    requires ResolveAll(local, remote, kyma, modules).Ok?
    ensures forall name :: name in ResolveAll(local, remote, kyma, modules).value ==>
      ResolveAll(local, remote, kyma, modules).value[name].channel != ""
  {
    if modules != [] {
      var m := modules[|modules| - 1];
      ResolvedChannelsAreNonEmpty(local, remote, kyma, modules[..|modules| - 1]);
      if m.remoteModuleTemplateRef == "" {
        ResolveIsSelectInDesiredChannel(TemplateLookup(local, m, kyma.channel));
      } else {
        ResolveIsSelectInDesiredChannel(TemplateLookup(remote, m.(name := m.remoteModuleTemplateRef), kyma.channel));
      }
    }
  }

  // ---------------------------------------------------------------------
  // Drift detection

  /** A template with no recorded status under its module name is never outdated. */
  lemma NoStatusNoDrift(t: Api.ModuleTemplate, name: string, statuses: seq<Api.ModuleStatus>)
    requires forall i :: 0 <= i < |statuses| ==> statuses[i].fqdn != name
    ensures !Drifted(t, name, statuses)
  {
  }

  /** A generation skew against any recorded status of the module makes it outdated. */
  lemma GenerationSkewDrifts(t: Api.ModuleTemplate, name: string, statuses: seq<Api.ModuleStatus>, k: nat)
    requires k < |statuses| && statuses[k].fqdn == name
    requires statuses[k].templateGeneration != t.generation
    ensures Drifted(t, name, statuses)
  {
  }

  /**
   * Without a generation skew, a template is only outdated by a channel skew
   * to a version at least as high as the recorded one: never a downgrade.
   */
  lemma SkewWithoutGenerationChangeIsNoDowngrade(t: Api.ModuleTemplate, st: Api.ModuleStatus)
    requires SkewDetected(t, st) && t.generation == st.templateGeneration
    ensures t.channel != st.channel && t.descriptor.Ok?
    ensures Semver.Parse(t.descriptor.value.version).Some? && Semver.Parse(st.version).Some?
    ensures var inTemplate, inStatus := Semver.Parse(t.descriptor.value.version).value, Semver.Parse(st.version).value;
      inTemplate == inStatus || Semver.GreaterThan(inTemplate, inStatus)
  {
  }

  /**
   * Conversely, a channel skew at the same generation whose versions both
   * parse and which is not a downgrade always makes the template outdated.
   */
  lemma ChannelSkewWithoutDowngradeDrifts(t: Api.ModuleTemplate, st: Api.ModuleStatus)
    requires t.generation == st.templateGeneration && t.channel != st.channel && t.descriptor.Ok?
    requires Semver.Parse(t.descriptor.value.version).Some? && Semver.Parse(st.version).Some?
    requires !Semver.GreaterThan(Semver.Parse(st.version).value, Semver.Parse(t.descriptor.value.version).value)
    ensures SkewDetected(t, st)
  {
  }

  /** Same generation and same channel: the status shows no skew. */
  lemma NoSkewWhenGenerationAndChannelAgree(t: Api.ModuleTemplate, st: Api.ModuleStatus)
    requires t.generation == st.templateGeneration && t.channel == st.channel
    ensures !SkewDetected(t, st)
  {
  }

  function TemplateAt(channel: string, version: string, generation: int): Api.ModuleTemplate {
    Api.ModuleTemplate("warden", map[], generation, channel, Ok(Api.Descriptor("warden", version)))
  }

  /** Recorded generation 3, resolved generation 4, same channel: outdated. */
  lemma GenerationSkewExample()
    ensures SkewDetected(TemplateAt("regular", "1.0.0", 4),
                         Api.ModuleStatus("warden", "regular", "1.0.0", 3))
  {
  }

  /** Recorded fast 2.0.0, resolved regular 1.0.0, same generation: the downgrade is suppressed. */
  lemma DowngradeSuppressedExample()
    ensures !SkewDetected(TemplateAt("regular", "1.0.0", 1),
                          Api.ModuleStatus("warden", "fast", "2.0.0", 1))
  {
  }

  /** Recorded regular 1.0.0, resolved fast 2.0.0, same generation: outdated. */
  lemma UpgradeAcrossChannelsExample()
    ensures SkewDetected(TemplateAt("fast", "2.0.0", 1),
                         Api.ModuleStatus("warden", "regular", "1.0.0", 1))
  {
    Semver.ParseFormat(Semver.Version(1, 0, 0));
    Semver.ParseFormat(Semver.Version(2, 0, 0));
    assert Semver.Format(Semver.Version(1, 0, 0)) == "1.0.0";
    assert Semver.Format(Semver.Version(2, 0, 0)) == "2.0.0";
  }
}
