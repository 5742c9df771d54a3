/**
 * The records of the operator API that the channel lookup reads: the module
 * list a Kyma declares, the catalog's ModuleTemplate objects and the module
 * status recorded by the previous reconciliation.
 */
module Api {
  import opened Wrappers

  /** The channel used when neither the module nor the Kyma names one. */
  const DefaultChannel: string := "regular"

  /** The well-known label that names the module a template belongs to. */
  const ModuleNameLabel: string := "operator.kyma-project.io/module-name"

  /** A module reference declared in a Kyma's spec. Empty strings stand for unset fields. */
  datatype Module = Module(name: string, channel: string, remoteModuleTemplateRef: string)

  /** The component descriptor embedded in a template: component name and semantic version. */
  datatype Descriptor = Descriptor(name: string, version: string)

  /**
   * A catalog entry. Its descriptor is decoded on demand and the decoding can
   * fail, which is why it is held as a Result.
   */
  datatype ModuleTemplate = ModuleTemplate(
    name: string,
    labels: map<string, string>,
    generation: int,
    channel: string,
    descriptor: Result<Descriptor, string>)

  /** What the previous reconciliation recorded for one module. */
  datatype ModuleStatus = ModuleStatus(fqdn: string, channel: string, version: string, templateGeneration: int)

  /** The parts of a Kyma object the lookup reads. */
  datatype Kyma = Kyma(
    channel: string,
    modules: seq<Module>,
    syncEnabled: bool,
    statusModules: seq<ModuleStatus>)

  /** A label's value; like a missing key in a Go map, an absent label reads as "". */
  function Label(t: ModuleTemplate, key: string): string {
    if key in t.labels then t.labels[key] else ""
  }
}
