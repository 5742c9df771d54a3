/**
 * Module-template resolution and drift detection for a Kyma object
 * (pkg/channel/lookup.go): pick exactly one ModuleTemplate per declared
 * module from a catalog snapshot, then flag each pick as outdated by
 * comparing it with the module status recorded last time.
 *
 * Each operation comes as a method shaped like the source and a function
 * that specifies it; the methods are proved against those functions and
 * channel_proofs.dfy proves what the functions mean.
 */
module Channel {
  import opened Wrappers
  import Api
  import Semver

  /** The error sentinels of the lookup, with the context their messages carry. */
  datatype Error =
    | TemplateNotIdentified(moduleName: string, candidates: seq<string>)
    | NotDefaultChannelAllowed(moduleName: string)
    | NoTemplatesInListResult(channel: string)
    | InvalidRemoteModuleConfiguration(moduleName: string)
    | InvalidDescriptor(cause: string)
    | ListFailed(cause: string)

  /** What listing a catalog reader returns: a snapshot of every template, or the reader's error. */
  datatype Listing = Listed(items: seq<Api.ModuleTemplate>) | ListError(cause: string)

  /** A resolved template together with the drift flag the lookup attaches to it. */
  class ModuleTemplate {
    const template: Api.ModuleTemplate
    var outdated: bool

    constructor (template: Api.ModuleTemplate)
      ensures this.template == template && !outdated
    {
      this.template := template;
      outdated := false;
    }
  }

  // ---------------------------------------------------------------------
  // Template matching

  predicate MatchesByLabel(t: Api.ModuleTemplate, id: string) {
    Api.Label(t, Api.ModuleNameLabel) == id
  }

  predicate MatchesByName(t: Api.ModuleTemplate, id: string) {
    t.name == id
  }

  predicate MatchesByDescriptor(t: Api.ModuleTemplate, id: string) {
    t.descriptor.Ok? && t.descriptor.value.name == id
  }

  /** A template is a candidate when it is in the desired channel and matches by any identity. */
  predicate IsCandidate(t: Api.ModuleTemplate, id: string, ch: string) {
    t.channel == ch && (MatchesByLabel(t, id) || MatchesByName(t, id) || MatchesByDescriptor(t, id))
  }

  /**
   * The scan decodes the descriptor of every template it has not already
   * accepted by label or by name, whatever that template's channel.
   */
  predicate DescriptorFetched(t: Api.ModuleTemplate, id: string, ch: string) {
    !(t.channel == ch && (MatchesByLabel(t, id) || MatchesByName(t, id)))
  }

  /** The decoding error of the first template whose descriptor is fetched and fails, if any. */
  function FirstDescriptorFailure(items: seq<Api.ModuleTemplate>, id: string, ch: string): Option<string> {
    if items == [] then None
    else if DescriptorFetched(items[0], id, ch) && items[0].descriptor.Err? then Some(items[0].descriptor.error)
    else FirstDescriptorFailure(items[1..], id, ch)
  }

  /** The candidates among items, in catalog order. */
  function Candidates(items: seq<Api.ModuleTemplate>, id: string, ch: string): seq<Api.ModuleTemplate> {
    if items == [] then []
    else
      var last := items[|items| - 1];
      Candidates(items[..|items| - 1], id, ch) + (if IsCandidate(last, id, ch) then [last] else [])
  }

  /** The object names of the given templates, in order. */
  function TemplateNames(items: seq<Api.ModuleTemplate>): seq<string> {
    seq(|items|, i requires 0 <= i < |items| => items[i].name)
  }

  /** Builds the ambiguity error; it names every template it is given. */
  method NewMoreThanOneTemplateCandidateErr(component: Api.Module, candidateTemplates: seq<Api.ModuleTemplate>)
    returns (e: Error)
    ensures e.TemplateNotIdentified? && e.moduleName == component.name
    ensures |e.candidates| == |candidateTemplates|
    ensures forall i :: 0 <= i < |candidateTemplates| ==> e.candidates[i] == candidateTemplates[i].name
  {
    var candidates := new string[|candidateTemplates|];
    for i := 0 to |candidateTemplates|
      invariant forall j :: 0 <= j < i ==> candidates[j] == candidateTemplates[j].name
    {
      candidates[i] := candidateTemplates[i].name;
    }
    e := TemplateNotIdentified(component.name, candidates[..]);
  }

  /** A lookup of one module's template in one catalog, with the Kyma's default channel. */
  datatype TemplateLookup = TemplateLookup(reader: Listing, moduleRef: Api.Module, defaultChannel: string)
  {
    /** Channel precedence: the module's own channel, then the Kyma default, then the system default. */
    function DesiredChannel(): (ch: string)
      ensures ch != ""
      ensures moduleRef.channel != "" ==> ch == moduleRef.channel
      ensures moduleRef.channel == "" && defaultChannel != "" ==> ch == defaultChannel
      ensures moduleRef.channel == "" && defaultChannel == "" ==> ch == Api.DefaultChannel
    {
      if moduleRef.channel != "" then moduleRef.channel
      else if defaultChannel != "" then defaultChannel
      else Api.DefaultChannel
    }

    /** What getTemplate yields for the desired channel. */
    function Select(desiredChannel: string): Result<Api.ModuleTemplate, Error> {
      match reader
      case ListError(cause) => Err(ListFailed(cause))
      case Listed(items) =>
        match FirstDescriptorFailure(items, moduleRef.name, desiredChannel)
        case Some(cause) => Err(InvalidDescriptor(cause))
        case None =>
          var candidates := Candidates(items, moduleRef.name, desiredChannel);
          if |candidates| > 1 then Err(TemplateNotIdentified(moduleRef.name, TemplateNames(items)))
          else if |candidates| == 0 then Err(NoTemplatesInListResult(desiredChannel))
          else Ok(candidates[0])
    }

    /** What WithContext yields: the selected template, refused when it carries no channel. */
    function Resolve(): Result<Api.ModuleTemplate, Error> {
      match Select(DesiredChannel())
      case Err(e) => Err(e)
      case Ok(t) => if t.channel == "" then Err(NotDefaultChannelAllowed(moduleRef.name)) else Ok(t)
    }

    /** Scans the catalog once and returns the single candidate, or fails. */
    method GetTemplate(desiredChannel: string) returns (r: Result<Api.ModuleTemplate, Error>)
      ensures r == Select(desiredChannel)
    {
      if reader.ListError? {
        return Err(ListFailed(reader.cause));
      }
      var items := reader.items;
      var moduleIdentifier := moduleRef.name;
      var filteredTemplates: seq<Api.ModuleTemplate> := [];
      for i := 0 to |items|
        invariant filteredTemplates == Candidates(items[..i], moduleIdentifier, desiredChannel)
        invariant FirstDescriptorFailure(items, moduleIdentifier, desiredChannel)
               == FirstDescriptorFailure(items[i..], moduleIdentifier, desiredChannel)
      {
        var template := items[i];
        assert items[..i + 1][..i] == items[..i];
        assert items[i..][1..] == items[i + 1..];
        if Api.Label(template, Api.ModuleNameLabel) == moduleIdentifier && template.channel == desiredChannel {
          filteredTemplates := filteredTemplates + [template];
          continue;
        }
        if template.name == moduleIdentifier && template.channel == desiredChannel {
          filteredTemplates := filteredTemplates + [template];
          continue;
        }
        if template.descriptor.Err? {
          return Err(InvalidDescriptor(template.descriptor.error));
        }
        var descriptor := template.descriptor.value;
        if descriptor.name == moduleIdentifier && template.channel == desiredChannel {
          filteredTemplates := filteredTemplates + [template];
          continue;
        }
      }
      assert items[..|items|] == items;

      if |filteredTemplates| > 1 {
        var e := NewMoreThanOneTemplateCandidateErr(moduleRef, items);
        assert e.candidates == TemplateNames(items);
        return Err(e);
      }
      if |filteredTemplates| == 0 {
        return Err(NoTemplatesInListResult(desiredChannel));
      }
      return Ok(filteredTemplates[0]);
    }

    /** Looks the module's template up and wraps it, not yet outdated. */
    method WithContext() returns (r: Result<ModuleTemplate, Error>)
      ensures r.Err? <==> Resolve().Err?
      ensures r.Err? ==> r.error == Resolve().error
      ensures r.Ok? ==> fresh(r.value) && r.value.template == Resolve().value && !r.value.outdated
    {
      var desiredChannel := DesiredChannel();
      var template := GetTemplate(desiredChannel);
      if template.Err? {
        return Err(template.error);
      }
      var actualChannel := template.value.channel;
      if actualChannel == "" {
        return Err(NotDefaultChannelAllowed(moduleRef.name));
      }
      var moduleTemplate := new ModuleTemplate(template.value);
      return Ok(moduleTemplate);
    }
  }

  // ---------------------------------------------------------------------
  // Resolution of the whole module set

  /**
   * One module's lookup: in the local catalog by its own name, or, with a
   * remote reference, in the remote catalog by that reference when sync is
   * enabled and as a configuration error otherwise.
   */
  function ResolveModule(local: Listing, remote: Listing, kyma: Api.Kyma, m: Api.Module): Result<Api.ModuleTemplate, Error> {
    if m.remoteModuleTemplateRef == "" then TemplateLookup(local, m, kyma.channel).Resolve()
    else if kyma.syncEnabled then TemplateLookup(remote, m.(name := m.remoteModuleTemplateRef), kyma.channel).Resolve()
    else Err(InvalidRemoteModuleConfiguration(m.name))
  }

  /** The templates of the given modules keyed by local module name, or the first error in order. */
  function ResolveAll(local: Listing, remote: Listing, kyma: Api.Kyma, modules: seq<Api.Module>)
    : Result<map<string, Api.ModuleTemplate>, Error>
  {
    if modules == [] then Ok(map[])
    else
      var m := modules[|modules| - 1];
      match ResolveAll(local, remote, kyma, modules[..|modules| - 1])
      case Err(e) => Err(e)
      case Ok(found) =>
        match ResolveModule(local, remote, kyma, m)
        case Err(e) => Err(e)
        case Ok(t) => Ok(found[m.name := t])
  }

  /** Resolving one more module extends the map or fails with that module's error. */
  lemma ResolveAllNext(local: Listing, remote: Listing, kyma: Api.Kyma, modules: seq<Api.Module>, i: nat,
                       found: map<string, Api.ModuleTemplate>)
    requires i < |modules| && ResolveAll(local, remote, kyma, modules[..i]) == Ok(found)
    ensures ResolveAll(local, remote, kyma, modules[..i + 1])
         == match ResolveModule(local, remote, kyma, modules[i])
            case Err(e) => Err(e)
            case Ok(t) => Ok(found[modules[i].name := t])
  {
    assert modules[..i + 1][..i] == modules[..i];
  }

  /** Once a prefix of the modules fails, the whole set fails with the same error. */
  lemma {:induction false} ResolveAllStopsAtFailure(local: Listing, remote: Listing, kyma: Api.Kyma, modules: seq<Api.Module>, n: nat)
    requires n <= |modules|
    requires ResolveAll(local, remote, kyma, modules[..n]).Err?
    ensures ResolveAll(local, remote, kyma, modules) == ResolveAll(local, remote, kyma, modules[..n])
  {
    if n < |modules| {
      var init := modules[..|modules| - 1];
      assert init[..n] == modules[..n];
      ResolveAllStopsAtFailure(local, remote, kyma, init, n);
      assert modules[..|modules|] == modules;
    } else {
      assert modules[..n] == modules;
    }
  }

  /**
   * One pass of the loop in GetTemplates: the lookup of one declared module,
   * in the remote catalog under its remote reference when sync is enabled.
   * The module's name is swapped for the reference only for that lookup.
   */
  method LookupDeclaredModule(local: Listing, remote: Listing, kyma: Api.Kyma, declared: Api.Module)
    returns (template: Result<ModuleTemplate, Error>)
    ensures template.Err? <==> ResolveModule(local, remote, kyma, declared).Err?
    ensures template.Err? ==> template.error == ResolveModule(local, remote, kyma, declared).error
    ensures template.Ok? ==>
      && fresh(template.value)
      && template.value.template == ResolveModule(local, remote, kyma, declared).value
      && !template.value.outdated
  {
    var current := declared;
    if current.remoteModuleTemplateRef == "" {
      template := TemplateLookup(local, current, kyma.channel).WithContext();
    } else if kyma.syncEnabled {
      var originalModuleName := current.name;
      current := current.(name := current.remoteModuleTemplateRef);
      template := TemplateLookup(remote, current, kyma.channel).WithContext();
      current := current.(name := originalModuleName);
    } else {
      template := Err(InvalidRemoteModuleConfiguration(current.name));
    }
  }

  /**
   * Resolves every module the Kyma declares, failing fast on the first
   * error, then flags drift against the Kyma's recorded module status.
   */
  method GetTemplates(local: Listing, remote: Listing, kyma: Api.Kyma)
    returns (r: Result<map<string, ModuleTemplate>, Error>)
    ensures r.Err? <==> ResolveAll(local, remote, kyma, kyma.modules).Err?
    ensures r.Err? ==> r.error == ResolveAll(local, remote, kyma, kyma.modules).error
    ensures r.Ok? ==>
      var want := ResolveAll(local, remote, kyma, kyma.modules).value;
      && r.value.Keys == want.Keys
      && (forall name :: name in r.value ==>
           && fresh(r.value[name])
           && r.value[name].template == want[name]
           && r.value[name].outdated == Drifted(want[name], name, kyma.statusModules))
      && forall a, b :: a in r.value && b in r.value && a != b ==> r.value[a] != r.value[b]
  {
    var templates: map<string, ModuleTemplate> := map[];
    ghost var found: map<string, Api.ModuleTemplate> := map[];
    for i := 0 to |kyma.modules|
      invariant ResolveAll(local, remote, kyma, kyma.modules[..i]) == Ok(found)
      invariant templates.Keys == found.Keys
      invariant forall name :: name in templates ==>
        fresh(templates[name]) && templates[name].template == found[name] && !templates[name].outdated
      invariant forall a, b :: a in templates && b in templates && a != b ==> templates[a] != templates[b]
    {
      var declared := kyma.modules[i];
      ResolveAllNext(local, remote, kyma, kyma.modules, i, found);
      var template := LookupDeclaredModule(local, remote, kyma, declared);
      if template.Err? {
        ResolveAllStopsAtFailure(local, remote, kyma, kyma.modules, i + 1);
        return Err(template.error);
      }

      templates := templates[declared.name := template.value];
      found := found[declared.name := template.value.template];
    }
    assert kyma.modules[..|kyma.modules|] == kyma.modules;

    CheckForOutdatedTemplates(kyma, templates);
    forall name | name in templates
      ensures templates[name].outdated == Drifted(found[name], name, kyma.statusModules)
    {
      assert templates[name] in Targets(templates);
    }
    return Ok(templates);
  }

  // ---------------------------------------------------------------------
  // Drift detection

  /**
   * Whether one recorded status makes the template outdated: any generation
   * skew does; a channel skew does unless the versions cannot be read or the
   * recorded version is strictly greater (a downgrade, which is suppressed).
   */
  predicate SkewDetected(t: Api.ModuleTemplate, st: Api.ModuleStatus) {
    if t.generation != st.templateGeneration then true
    else if t.channel == st.channel then false
    else
      match t.descriptor
      case Err(_) => false
      case Ok(d) =>
        match (Semver.Parse(d.version), Semver.Parse(st.version))
        case (Some(inTemplate), Some(inStatus)) => !Semver.GreaterThan(inStatus, inTemplate)
        case _ => false
  }

  /** Whether some recorded status for the module named name makes t outdated. */
  predicate Drifted(t: Api.ModuleTemplate, name: string, statuses: seq<Api.ModuleStatus>) {
    exists i :: 0 <= i < |statuses| && statuses[i].fqdn == name && SkewDetected(t, statuses[i])
  }

  /** The wrappers a template map refers to. */
  function Targets(templates: map<string, ModuleTemplate?>): set<ModuleTemplate> {
    set o: ModuleTemplate | o in templates.Values
  }

  /** Sets the flag when the recorded status shows skew; never clears it. */
  method CheckForOutdatedTemplate(moduleTemplate: ModuleTemplate, moduleStatus: Api.ModuleStatus)
    modifies moduleTemplate
    ensures moduleTemplate.outdated == (old(moduleTemplate.outdated) || SkewDetected(moduleTemplate.template, moduleStatus))
  {
    if moduleTemplate.template.generation != moduleStatus.templateGeneration {
      moduleTemplate.outdated := true;
      return;
    }

    if moduleTemplate.template.channel != moduleStatus.channel {
      if moduleTemplate.template.descriptor.Err? {
        return;
      }
      var descriptor := moduleTemplate.template.descriptor.value;

      var versionInTemplate := Semver.Parse(descriptor.version);
      if versionInTemplate.None? {
        return;
      }

      var versionInStatus := Semver.Parse(moduleStatus.version);
      if versionInStatus.None? {
        return;
      }

      if Semver.GreaterThan(versionInStatus.value, versionInTemplate.value) {
        return;
      }

      moduleTemplate.outdated := true;
    }
  }

  /**
   * Checks every template against every recorded status whose FQDN is its
   * module name. A template is flagged when any such status shows skew,
   * whatever order the map is visited in.
   */
  method CheckForOutdatedTemplates(k: Api.Kyma, templates: map<string, ModuleTemplate?>)
    modifies Targets(templates)
    ensures forall o :: o in Targets(templates) ==>
      o.outdated == (old(o.outdated) ||
        exists name :: name in templates && templates[name] == o && Drifted(o.template, name, k.statusModules))
  {
    var remaining := templates.Keys;
    ghost var done: set<string> := {};
    while remaining != {}
      invariant remaining + done == templates.Keys && remaining !! done
      invariant forall o :: o in Targets(templates) ==>
        o.outdated == (old(o.outdated) ||
          exists name :: name in done && templates[name] == o && Drifted(o.template, name, k.statusModules))
      decreases remaining
    {
      var moduleName :| moduleName in remaining;
      var moduleTemplate := templates[moduleName];
      for i := 0 to |k.statusModules|
        invariant forall o :: o in Targets(templates) ==>
          o.outdated == (old(o.outdated)
            || (exists name :: name in done && templates[name] == o && Drifted(o.template, name, k.statusModules))
            || (o == moduleTemplate && exists j :: 0 <= j < i && k.statusModules[j].fqdn == moduleName
                                                  && SkewDetected(o.template, k.statusModules[j])))
      {
        var moduleStatus := k.statusModules[i];
        if moduleStatus.fqdn == moduleName && moduleTemplate != null {
          assert moduleTemplate in Targets(templates);
          CheckForOutdatedTemplate(moduleTemplate, moduleStatus);
        }
      }
      remaining := remaining - {moduleName};
      done := done + {moduleName};
    }
  }
}
