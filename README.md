# Module-template lookup and drift detection, modelled in Dafny

This project models the module-template resolution engine of the Kyma
lifecycle manager (`pkg/channel/lookup.go`). For a Kyma object that declares a
list of modules, the engine picks exactly one `ModuleTemplate` per module from
a catalog snapshot and returns the picks keyed by module name. It then flags
each pick as `Outdated` when the module status recorded by the previous
reconciliation shows a generation skew, or a channel skew that is not a
downgrade.

Files:

- `wrappers.dfy`: `Option` and `Result`.
- `semver.dfy`: a stand-in for the semantic-version library. It parses
  `MAJOR.MINOR.PATCH` with an optional leading `v` and defines the strict
  order `GreaterThan`. `Parse(Format(v)) == Some(v)` is proved for components within 64 bits, and a larger component is proved not to parse.
- `api.dfy`: the operator API records the lookup reads. These are `Module`,
  `ModuleTemplate`, `Descriptor`, `ModuleStatus` and `Kyma`, plus the
  constants `DefaultChannel` and `ModuleNameLabel`. A missing label reads as
  `""`, as a missing key does in a Go map.
- `channel.dfy`: the package itself.
  - The error sentinels become the `Error` datatype. Each variant carries the
    context its message names.
  - The `ModuleTemplate{Outdated}` wrapper is a class. Its `outdated` field is
    changed in place.
  - `TemplateLookup` is a datatype; its constructor stands for
    `NewTemplateLookup`. Its methods are `GetTemplate` (the single scan) and
    `WithContext`, and its functions `DesiredChannel`, `Select` (what
    `getTemplate` yields) and `Resolve` (what `WithContext` yields).
  - `GetTemplates` builds the map in a loop and then calls
    `CheckForOutdatedTemplates`. Each pass of the loop calls
    `LookupDeclaredModule`, which holds the source's three-way switch on the
    remote reference and the temporary swap of the module name.
  - `GetTemplate`, `WithContext`, `GetTemplates` and the two drift methods
    are proved against specification functions: `Select`, `Resolve`,
    `ResolveAll`, `SkewDetected` and `Drifted`.
    `NewMoreThanOneTemplateCandidateErr` states its result directly.
- `channel_proofs.dfy`: lemmas that say what those functions mean.

A catalog reader is modelled by the `Listing` it returns: either every template
or the reader's error, which is propagated as `ListFailed`. `GetTemplates`
takes two listings, the local one and the remote one. The remote listing is
consulted only for a module with a remote reference while sync is enabled.

Behaviours of the code a reader might not expect, which the model keeps:

- A template that matches by more than one identity (label, object name,
  descriptor name) is appended once, because each branch of the scan ends in
  `continue`. `CandidatesCountEachEntryOnce` proves there is no double
  counting.
- The ambiguity error lists the names of every template in the listing, not
  just the candidates. `SelectRejectsAmbiguity` states this.
- The descriptor of every template not already accepted by label or by name
  is decoded, whatever its channel. A template in another channel whose
  descriptor does not decode therefore aborts the whole match.
- The empty-channel rejection in `WithContext` can never fire. The matched
  template's channel equals the desired channel, and that is never empty,
  because the system default channel is not empty.
  `ResolveIsSelectInDesiredChannel` proves this; the branch is kept as written.
- In the remote case the lookup runs with the module name replaced by the
  remote reference. So errors raised inside the lookup name the reference,
  while the result map is keyed by the local name.

## Model

| member | source | states |
|---|---|---|
| Channel.TemplateLookup.DesiredChannel | pkg/channel/lookup.go:214-227 | the module channel wins, then the Kyma default, then the system default; the result is never empty |
| Channel.NewMoreThanOneTemplateCandidateErr | pkg/channel/lookup.go:269-279 | the ambiguity error names the module and lists exactly one name per given template, in the given order |
| Channel.TemplateLookup.GetTemplate | pkg/channel/lookup.go:229-267 | the one-pass scan with early `continue` and early descriptor abort yields exactly `Select`: list error, first descriptor failure, ambiguity over all listed names, not-found naming the channel, or the single candidate |
| Channel.TemplateLookup.WithContext | pkg/channel/lookup.go:173-212 | yields `Resolve`: a fresh wrapper holding the selected template with `outdated` false, or the lookup's error, or `NotDefaultChannelAllowed` for an empty channel |
| Channel.ModuleTemplate.constructor | pkg/channel/lookup.go:208-211 | a new wrapper holds the template and is not outdated |
| Channel.LookupDeclaredModule | pkg/channel/lookup.go:47-58 | yields `ResolveModule`: the local lookup by the module's own name, the remote lookup by its reference when sync is enabled, or `InvalidRemoteModuleConfiguration` naming the module; a found template comes in a fresh wrapper that is not outdated |
| Channel.ResolveAllStopsAtFailure | pkg/channel/lookup.go:60-62 | once a prefix of the declared modules fails, the whole resolution fails with that same error |
| Channel.ResolveAllNext | pkg/channel/lookup.go:47-64 | resolving one more module either adds its template under its local name or fails with that module's error |
| Channel.GetTemplates | pkg/channel/lookup.go:33-70 | fails exactly when `ResolveAll` fails and with the same error; on success the keys are those of `ResolveAll`, each value is a fresh wrapper of the resolved template, its flag equals `Drifted` against the Kyma's module status, and distinct keys hold distinct wrappers |
| Channel.CheckForOutdatedTemplate | pkg/channel/lookup.go:90-151 | sets `outdated` when `SkewDetected` holds, leaves it otherwise; never clears it |
| Channel.CheckForOutdatedTemplates | pkg/channel/lookup.go:72-83 | each wrapper ends outdated exactly when it was before or some status whose FQDN is a key mapping to it shows skew; independent of map iteration order; nil entries are skipped |
| ChannelProofs.CandidatesCountEachEntryOnce | pkg/channel/lookup.go:240-257 | the candidates are exactly the listed entries in the desired channel that match by label, name or descriptor, each counted as often as it is listed, never more |
| ChannelProofs.CandidatesAreMatchingEntries | pkg/channel/lookup.go:240-257 | every candidate is a listed template in the desired channel that matches the identifier |
| ChannelProofs.NoCandidatesIff | pkg/channel/lookup.go:262-265 | the candidate list is empty exactly when no listed template is a candidate |
| ChannelProofs.SeveralCandidatesIff | pkg/channel/lookup.go:259-261 | more than one candidate exactly when two distinct listing positions hold candidates |
| ChannelProofs.NoDescriptorFailureIff | pkg/channel/lookup.go:249-252 | the scan meets no descriptor failure exactly when every descriptor it fetches decodes |
| ChannelProofs.FirstDescriptorFailureAt | pkg/channel/lookup.go:249-252 | the error reported is that of the first fetched descriptor that fails |
| ChannelProofs.SelectPicksTheOnlyCandidate | pkg/channel/lookup.go:259-266 | a successful match is a listed template at the one position holding a candidate |
| ChannelProofs.SelectFindsUniqueCandidate | pkg/channel/lookup.go:240-266 | with readable descriptors and exactly one candidate position, the match returns that template |
| ChannelProofs.SelectRejectsAmbiguity | pkg/channel/lookup.go:259-260 | with readable descriptors, two candidates give `TemplateNotIdentified` naming the module and listing every listed template's name in order, so the list is as long as the listing |
| ChannelProofs.SelectReportsMissingTemplate | pkg/channel/lookup.go:262-265 | with readable descriptors and no candidate the error is `NoTemplatesInListResult` naming the searched channel |
| ChannelProofs.SelectAbortsOnBadDescriptor | pkg/channel/lookup.go:249-252 | the first fetched descriptor that fails to decode aborts the match with its error, including for templates outside the desired channel |
| ChannelProofs.ResolveIsSelectInDesiredChannel | pkg/channel/lookup.go:181-189 | a resolved template is a listed candidate in the desired channel with a non-empty channel, so the empty-channel rejection never fires |
| ChannelProofs.ResolveAllSucceedsIff | pkg/channel/lookup.go:43-65 | the module set resolves exactly when every declared module resolves |
| ChannelProofs.ResolveAllFailsFast | pkg/channel/lookup.go:60-62 | a failure carries the error of the first declared module that fails; all modules before it resolve |
| ChannelProofs.RemoteReferenceNeedsSync | pkg/channel/lookup.go:55-57 | once every module declared before it resolves, a remote reference with sync disabled fails the pass with `InvalidRemoteModuleConfiguration` naming the local module |
| ChannelProofs.ResolveAllKeys | pkg/channel/lookup.go:51-54 | the result has exactly one key per declared module, its local name, even when a remote reference was looked up |
| ChannelProofs.ResolveAllEntry | pkg/channel/lookup.go:64 | each key holds the template of the last module declared under that name |
| ChannelProofs.ResolvedChannelsAreNonEmpty | pkg/channel/lookup.go:183-189 | every template in a successful resolution has a non-empty channel |
| ChannelProofs.NoStatusNoDrift | pkg/channel/lookup.go:75-81 | a template without a status whose FQDN is its module name is never outdated |
| ChannelProofs.GenerationSkewDrifts | pkg/channel/lookup.go:105-109 | a generation skew against any status of the module makes it outdated |
| ChannelProofs.ChannelSkewWithoutDowngradeDrifts | pkg/channel/lookup.go:111-149 | a channel skew at the same generation whose versions both parse and whose recorded version is not greater than the template's always makes the template outdated |
| ChannelProofs.NoSkewWhenGenerationAndChannelAgree | pkg/channel/lookup.go:105-111 | same generation and same channel leave the template fresh |
| ChannelProofs.SkewWithoutGenerationChangeIsNoDowngrade | pkg/channel/lookup.go:111-149 | without a generation skew, a template is flagged only on a channel skew whose versions both parse and whose template version is at least the recorded one |
| ChannelProofs.GenerationSkewExample | pkg/channel/lookup.go:105-109 | recorded generation 3 against resolved 4 in the same channel is outdated |
| ChannelProofs.DowngradeSuppressedExample | pkg/channel/lookup.go:137-147 | recorded fast 2.0.0 against resolved regular 1.0.0 at the same generation stays fresh |
| ChannelProofs.UpgradeAcrossChannelsExample | pkg/channel/lookup.go:144-149 | recorded regular 1.0.0 against resolved fast 2.0.0 at the same generation is outdated |
| Semver.ParseFormat | pkg/channel/lookup.go:120-130 | the stand-in parser reads back every formatted version whose components fit 64 bits; larger components do not parse |
| Semver.GreaterThanIsStrictTotalOrder | pkg/channel/lookup.go:144 | the version order is irreflexive, asymmetric, transitive and total |

## Left out

- Logging (`checkLog`, the controller logger, the "using %s instead of %s" messages) is not modelled; it only emits diagnostics.
- The cluster client's `List` call, `context.Context` and the sync context that supplies the runtime client are replaced by two `Listing` values passed in. The source lists the catalog again for each module; the model uses one snapshot per reader for the whole pass.
- The semantic-version library is foreign code. `Semver.Parse` accepts only `MAJOR.MINOR.PATCH` with an optional leading `v`, each component at most 2^64-1 as the library's unsigned 64-bit components allow; partial versions, pre-release and build metadata, and their ordering, are not modelled.
- Error wrapping and message text are reduced to the `Error` variants and the values their messages name.
- `DefaultChannel` and `ModuleNameLabel` are defined in the operator API package, which is not part of this model. The model uses `"regular"` and `"operator.kyma-project.io/module-name"`; the properties rely only on the default channel being non-empty.
- The `Lookup` interface is not modelled separately; `TemplateLookup` is its only implementation.
- Idempotence of resolution needs no lemma: `ResolveAll` is a function of the Kyma object and the two listings, and `GetTemplates` is proved equal to it.
- Concurrency: the source resolves modules sequentially and the model does the same.
