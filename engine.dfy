/**
 * The engine-side world the scaffolder runs against, taken as one snapshot:
 * project settings, directories, the plugin list and the engine helpers
 * whose bodies live outside this plugin.
 */
module Engine {

  /** Files on disk: a path absent from the map cannot be read. */
  type FileStore = map<string, string>

  /** Index of a value of the engine's module host-type enumeration. */
  type HostType = nat

  /** A plugin as the plugin manager reports it. */
  datatype Plugin = Plugin(name: string, friendlyName: string, baseDir: string, loadedFromProject: bool)

  /** Why an operation failed; each carries the file it concerns. */
  datatype FailReason =
    | TemplateUnreadable(templatePath: string)
    | WriteFailed(path: string)
    | UpdateFailed(path: string)
    | ProjectFilesNotGenerated
    | ModuleNotCompiled

  /**
   * The engine state a run sees. The functions stand for engine helpers that
   * are not part of this model: the comma-delimited and include-list
   * builders, and the relative-to-absolute path conversion.
   */
  datatype EngineContext = EngineContext(
    projectName: string,
    gameSourceDir: string,
    pluginContentDir: string,
    projectFilePath: string,
    engineIdentifier: string,
    copyrightNotice: string,
    hostTypeMax: nat,
    editorHostType: HostType,
    commaDelimitedList: seq<string> -> string,
    includeList: seq<string> -> string,
    toFullPath: string -> string)
}
