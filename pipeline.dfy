/**
 * Module generation: the step sequence that writes the three module files,
 * registers the module in the primary module's build rules and in the
 * project target, updates the project file and asks the engine to pick
 * the new code up. A failure in one of the first five steps deletes the
 * files logged so far and reports that code could not be added.
 */
module Scaffold {
  import opened Wrappers
  import opened Text
  import opened Engine
  import opened Render
  import opened Splice
  import opened Descriptors

  /** The outcome of adding code to the project. */
  datatype AddCodeResult = Succeeded | FailedToHotReload | FailedToAddCode

  /**
   * The outcomes of the engine calls the steps make, which are not part of
   * this model: the three file writes, the saves of the two rewritten
   * rules files, the project file save and engine association, adding the
   * files to the source navigation, regenerating the project files, and
   * recompiling the new module.
   */
  datatype EngineOutcomes = EngineOutcomes(
    buildWriteOk: bool,
    headerWriteOk: bool,
    cppWriteOk: bool,
    primarySaveOk: bool,
    targetSaveOk: bool,
    projectSaveOk: bool,
    associateOk: bool,
    addSourceFilesOk: bool,
    generateProjectFilesOk: bool,
    recompileOk: bool)

  /** Files on disk and parsed project files. */
  datatype World = World(files: FileStore, projects: ProjectStore)

  /** What a run produces: the result, the created-files log, the new world and the failure reason. */
  datatype Generation = Generation(result: AddCodeResult, created: seq<string>, world: World, reason: Option<FailReason>)

  /** The modules every new module depends on publicly. */
  const DefaultPublicDependencies := ["Core", "CoreUObject", "Engine", "InputCore"]

  function BuildFilePath(modulePath: string, moduleName: string): string
  {
    PathJoin(modulePath, moduleName) + ".Build.cs"
  }

  function HeaderFilePath(modulePath: string, moduleName: string): string
  {
    PathJoin(PathJoin(modulePath, "Public"), moduleName) + ".h"
  }

  function SourceFilePath(modulePath: string, moduleName: string): string
  {
    PathJoin(PathJoin(modulePath, "Private"), moduleName) + ".cpp"
  }

  /** The three files a complete run creates, in the order it creates them. */
  function ModuleFiles(modulePath: string, moduleName: string): seq<string>
  {
    [BuildFilePath(modulePath, moduleName), HeaderFilePath(modulePath, moduleName), SourceFilePath(modulePath, moduleName)]
  }

  /** Deletes every logged file; the directories are not part of this model. */
  function DeleteCreatedFiles(fs: FileStore, created: seq<string>): (r: FileStore)
    ensures forall p :: p in r <==> p in fs && p !in created
    ensures forall p :: p in r ==> r[p] == fs[p]
  {
    map p | p in fs && p !in created :: fs[p]
  }

  /** The rewrite of one rules file: `None` when the file or its declaration is missing. */
  function RewriteRules(find: Finder, fs: FileStore, path: string, list: string, moduleName: string, saveOk: bool): Option<FileStore>
    requires SoundFinder(find)
  {
    if path in fs && find(list, fs[path]).Some? then
      Some(if saveOk then fs[path := Spliced(fs[path], find(list, fs[path]).value, list, moduleName)] else fs)
    else None
  }

  /**
   * Where a phase stopped: the files it logged, the file store at that
   * point, and the reason when it failed.
   */
  datatype Stage = Stage(logged: seq<string>, files: FileStore, failure: Option<FailReason>)

  /** The first three steps: write the build rules, the header and the source file, logging each one written. */
  function WriteModuleFiles(ctx: EngineContext, fs: FileStore, modulePath: string, moduleName: string,
                            usePCH: bool, o: EngineOutcomes): (s: Stage)
    ensures var files := ModuleFiles(modulePath, moduleName);
            s.logged == [] || s.logged == files[..1] || s.logged == files[..2] || s.logged == files
    ensures s.failure.None? ==> s.logged == ModuleFiles(modulePath, moduleName)
  {
    var files := ModuleFiles(modulePath, moduleName);
    var build := GenerateModuleBuildFile(ctx, fs, files[0], moduleName, DefaultPublicDependencies, [], usePCH, o.buildWriteOk);
    if build.NotGenerated? then Stage([], fs, Some(build.reason))
    else
      var header := GenerateModuleHeaderFile(ctx, build.files, files[1], moduleName, [], o.headerWriteOk);
      if header.NotGenerated? then Stage(files[..1], build.files, Some(header.reason))
      else
        var cpp := GenerateModuleCPPFile(ctx, header.files, files[2], moduleName, "", "", o.cppWriteOk);
        if cpp.NotGenerated? then Stage(files[..2], header.files, Some(cpp.reason))
        else Stage(files, cpp.files, None)
  }

  /** Steps four and five: register the module with the primary module's rules, then with the project target. */
  function RegisterModule(ctx: EngineContext, find: Finder, fs: FileStore, target: Option<Plugin>, moduleName: string,
                          isEditor: bool, o: EngineOutcomes): (s: Stage)
    requires SoundFinder(find)
    ensures s.logged == []
  {
    var primaryPath := PrimaryBuildPath(ctx, target, isEditor);
    var primary := RewriteRules(find, fs, primaryPath, PublicDependencyList, moduleName, o.primarySaveOk);
    if primary.None? then Stage([], fs, Some(UpdateFailed(primaryPath)))
    else
      var targetPath := TargetFilePath(ctx, isEditor);
      var targetRules := RewriteRules(find, primary.value, targetPath, ExtraModuleList, moduleName, o.targetSaveOk);
      if targetRules.None? then Stage([], primary.value, Some(UpdateFailed(targetPath)))
      else Stage([], targetRules.value, None)
  }

  /** The last steps: hand the files to the source navigation or regenerate the project files, then recompile. */
  function HotReload(o: EngineOutcomes): (r: (AddCodeResult, Option<FailReason>))
  {
    if !o.addSourceFilesOk && !o.generateProjectFilesOk then (FailedToHotReload, Some(ProjectFilesNotGenerated))
    else if !o.recompileOk then (FailedToHotReload, Some(ModuleNotCompiled))
    else (Succeeded, None)
  }

  /** The run as a value: a failure in the first two phases deletes the logged files; after them the project file is updated. */
  function Generate(ctx: EngineContext, find: Finder, world: World, modulePath: string, target: Option<Plugin>,
                    moduleName: string, hostType: HostType, usePCH: bool, createdFiles: seq<string>,
                    o: EngineOutcomes): Generation
    requires SoundFinder(find)
  {
    var written := WriteModuleFiles(ctx, world.files, modulePath, moduleName, usePCH, o);
    var created := createdFiles + written.logged;
    if written.failure.Some? then RolledBack(world, created, written.files, written.failure.value)
    else
      var registered := RegisterModule(ctx, find, written.files, target, moduleName, hostType == ctx.editorHostType, o);
      if registered.failure.Some? then RolledBack(world, created, registered.files, registered.failure.value)
      else
        var (_, projects) := UpdateGameProject(ctx, world.projects, Some(ProjectModifier([ModuleDescriptor(moduleName, hostType)])),
                                               o.projectSaveOk, o.associateOk);
        var (result, reason) := HotReload(o);
        Generation(result, created, World(registered.files, projects), reason)
  }

  /** A failed step: the logged files are deleted, the project files are untouched. */
  function RolledBack(world: World, created: seq<string>, fs: FileStore, reason: FailReason): Generation
  {
    Generation(FailedToAddCode, created, World(DeleteCreatedFiles(fs, created), world.projects), Some(reason))
  }

  /**
   * The first three steps of a run: writes the module's build rules, its
   * header and its source file, returning the files written so far, the
   * file store and, when a write failed, the reason.
   */
  method GenerateModuleFiles(ctx: EngineContext, fs: FileStore, modulePath: string, moduleName: string,
                             usePCH: bool, o: EngineOutcomes)
    returns (logged: seq<string>, fs': FileStore, failure: Option<FailReason>)
    ensures Stage(logged, fs', failure) == WriteModuleFiles(ctx, fs, modulePath, moduleName, usePCH, o)
  {
    logged := [];
    fs' := fs;

    // The module's build rules.
    var buildFilename := BuildFilePath(modulePath, moduleName);
    var build := GenerateModuleBuildFile(ctx, fs', buildFilename, moduleName, DefaultPublicDependencies, [], usePCH, o.buildWriteOk);
    if build.NotGenerated? {
      return logged, fs', Some(build.reason);
    }
    fs' := build.files;
    logged := logged + [buildFilename];

    // The module's header.
    var headerFilename := HeaderFilePath(modulePath, moduleName);
    var header := GenerateModuleHeaderFile(ctx, fs', headerFilename, moduleName, [], o.headerWriteOk);
    if header.NotGenerated? {
      ModuleFilesLog(modulePath, moduleName);
      return logged, fs', Some(header.reason);
    }
    fs' := header.files;
    logged := logged + [headerFilename];

    // The module's source.
    var sourceFilename := SourceFilePath(modulePath, moduleName);
    var cpp := GenerateModuleCPPFile(ctx, fs', sourceFilename, moduleName, "", "", o.cppWriteOk);
    if cpp.NotGenerated? {
      ModuleFilesLog(modulePath, moduleName);
      return logged, fs', Some(cpp.reason);
    }
    fs' := cpp.files;
    logged := logged + [sourceFilename];
    ModuleFilesLog(modulePath, moduleName);
    return logged, fs', None;
  }

  /**
   * Steps four and five of a run: adds the module to the primary module's
   * public dependencies, then to the project target's extra modules,
   * stopping at the first failure.
   */
  method RegisterDependencies(ctx: EngineContext, find: Finder, fs: FileStore, target: Option<Plugin>, moduleName: string,
                              isEditor: bool, o: EngineOutcomes)
    returns (fs': FileStore, failure: Option<FailReason>)
    requires SoundFinder(find)
    ensures Stage([], fs', failure) == RegisterModule(ctx, find, fs, target, moduleName, isEditor, o)
  {
    var ok;
    ok, fs', failure := InsertDependencyIntoPrimaryBuild(ctx, find, fs, moduleName, target, isEditor, o.primarySaveOk);
    if !ok {
      return fs', failure;
    }
    ok, fs', failure := InsertDependencyIntoTarget(ctx, find, fs', moduleName, isEditor, o.targetSaveOk);
  }

  /**
   * Generates a module at `modulePath` for the project (no target plugin)
   * or for a plugin, logging each file it writes after `createdFiles`.
   */
  method GenerateModule(ctx: EngineContext, find: Finder, world: World, modulePath: string, target: Option<Plugin>,
                        moduleName: string, hostType: HostType, usePCH: bool, createdFiles: seq<string>,
                        o: EngineOutcomes)
    returns (result: AddCodeResult, created: seq<string>, world': World, reason: Option<FailReason>)
    requires SoundFinder(find)
    ensures Generation(result, created, world', reason)
            == Generate(ctx, find, world, modulePath, target, moduleName, hostType, usePCH, createdFiles, o)
  {
    // The module's build rules, header and source, each logged once written.
    var logged, fs, failure := GenerateModuleFiles(ctx, world.files, modulePath, moduleName, usePCH, o);
    created := createdFiles + logged;
    if failure.Some? {
      return FailedToAddCode, created, World(DeleteCreatedFiles(fs, created), world.projects), failure;
    }
    var generatedModules := [ModuleDescriptor(moduleName, hostType)];

    // Register the module with the primary module and with the project target.
    var failure';
    fs, failure' := RegisterDependencies(ctx, find, fs, target, moduleName, hostType == ctx.editorHostType, o);
    if failure'.Some? {
      return FailedToAddCode, created, World(DeleteCreatedFiles(fs, created), world.projects), failure';
    }

    // Record the module in the project file; the outcome is not looked at.
    var (_, projects) := UpdateGameProject(ctx, world.projects, Some(ProjectModifier(generatedModules)), o.projectSaveOk, o.associateOk);
    world' := World(fs, projects);

    if !o.addSourceFilesOk && !o.generateProjectFilesOk {
      return FailedToHotReload, created, world', Some(ProjectFilesNotGenerated);
    }
    if !o.recompileOk {
      return FailedToHotReload, created, world', Some(ModuleNotCompiled);
    }
    return Succeeded, created, world', None;
  }

  /** Logging the module files one at a time yields the prefixes of their list. */
  lemma ModuleFilesLog(modulePath: string, moduleName: string)
    ensures var files := ModuleFiles(modulePath, moduleName);
            && [] + [files[0]] == files[..1]
            && [] + [files[0]] + [files[1]] == files[..2]
            && [] + [files[0]] + [files[1]] + [files[2]] == files
  {
  }

  // ----- Properties of a run -----

  /**
   * The log grows by a prefix of the three module files, in creation order;
   * whenever code was added, it holds all three.
   */
  lemma CreatedIsPrefixOfModuleFiles(ctx: EngineContext, find: Finder, world: World, modulePath: string, target: Option<Plugin>,
                                     moduleName: string, hostType: HostType, usePCH: bool, createdFiles: seq<string>,
                                     o: EngineOutcomes)
    requires SoundFinder(find)
    ensures var g := Generate(ctx, find, world, modulePath, target, moduleName, hostType, usePCH, createdFiles, o);
            && (exists k :: 0 <= k <= 3 && g.created == createdFiles + ModuleFiles(modulePath, moduleName)[..k])
            && (g.result != FailedToAddCode ==> g.created == createdFiles + ModuleFiles(modulePath, moduleName))
  {
    var files := ModuleFiles(modulePath, moduleName);
    assert files[..0] == [];
    assert files[..1] == [files[0]];
    assert files[..2] == [files[0], files[1]];
    assert files[..3] == files;
  }

  /**
   * A failed run removes every file it logged and leaves the project files
   * as they were; it always names a reason.
   */
  lemma FailureDeletesLoggedFiles(ctx: EngineContext, find: Finder, world: World, modulePath: string, target: Option<Plugin>,
                                  moduleName: string, hostType: HostType, usePCH: bool, createdFiles: seq<string>,
                                  o: EngineOutcomes)
    requires SoundFinder(find)
    ensures var g := Generate(ctx, find, world, modulePath, target, moduleName, hostType, usePCH, createdFiles, o);
            g.result == FailedToAddCode ==>
              && (forall p :: p in g.created ==> p !in g.world.files)
              && g.world.projects == world.projects
              && g.reason.Some?
  {
  }

  /**
   * A failed run keeps every file it did not log, with its contents unless
   * it is one of the two rules files the registration steps rewrite.
   */
  lemma FailureKeepsOtherFiles(ctx: EngineContext, find: Finder, world: World, modulePath: string, target: Option<Plugin>,
                               moduleName: string, hostType: HostType, usePCH: bool, createdFiles: seq<string>,
                               o: EngineOutcomes)
    requires SoundFinder(find)
    ensures var g := Generate(ctx, find, world, modulePath, target, moduleName, hostType, usePCH, createdFiles, o);
            var isEditor := hostType == ctx.editorHostType;
            g.result == FailedToAddCode ==>
              && (forall p :: p in world.files && p !in g.created ==> p in g.world.files)
              && (forall p :: p in world.files && p !in g.created
                             && p != PrimaryBuildPath(ctx, target, isEditor) && p != TargetFilePath(ctx, isEditor)
                             ==> g.world.files[p] == world.files[p])
  {
    var isEditor := hostType == ctx.editorHostType;
    var written := WriteModuleFiles(ctx, world.files, modulePath, moduleName, usePCH, o);
    var created := createdFiles + written.logged;
    WriteModuleFilesFrame(ctx, world.files, modulePath, moduleName, usePCH, o);
    if written.failure.Some? {
      assert Generate(ctx, find, world, modulePath, target, moduleName, hostType, usePCH, createdFiles, o)
             == RolledBack(world, created, written.files, written.failure.value);
    } else {
      var registered := RegisterModule(ctx, find, written.files, target, moduleName, isEditor, o);
      RegisterModuleKeepsFiles(ctx, find, written.files, target, moduleName, isEditor, o);
      RegisterModuleKeepsOthers(ctx, find, written.files, target, moduleName, isEditor, o);
      if registered.failure.Some? {
        assert Generate(ctx, find, world, modulePath, target, moduleName, hostType, usePCH, createdFiles, o)
               == RolledBack(world, created, registered.files, registered.failure.value);
      }
    }
  }

  /** The file phase adds exactly the files it logged and changes no other file. */
  lemma {:induction false} WriteModuleFilesFrame(ctx: EngineContext, fs: FileStore, modulePath: string, moduleName: string,
                                                 usePCH: bool, o: EngineOutcomes)
    ensures var s := WriteModuleFiles(ctx, fs, modulePath, moduleName, usePCH, o);
            && (forall p :: p in s.files <==> p in fs || p in s.logged)
            && (forall p :: p in fs && p !in s.logged ==> s.files[p] == fs[p])
  {
    var files := ModuleFiles(modulePath, moduleName);
    assert files[..1] == [files[0]];
    assert files[..2] == [files[0], files[1]];
  }

  /** Registering rewrites files in place: the set of files stays the same. */
  lemma RegisterModuleKeepsFiles(ctx: EngineContext, find: Finder, fs: FileStore, target: Option<Plugin>, moduleName: string,
                                 isEditor: bool, o: EngineOutcomes)
    requires SoundFinder(find)
    ensures forall p :: p in RegisterModule(ctx, find, fs, target, moduleName, isEditor, o).files <==> p in fs
  {
  }

  /** Registering changes the contents of no file but the two rules files. */
  lemma RegisterModuleKeepsOthers(ctx: EngineContext, find: Finder, fs: FileStore, target: Option<Plugin>, moduleName: string,
                                  isEditor: bool, o: EngineOutcomes)
    requires SoundFinder(find)
    ensures var s := RegisterModule(ctx, find, fs, target, moduleName, isEditor, o);
            forall p :: p in fs && p != PrimaryBuildPath(ctx, target, isEditor) && p != TargetFilePath(ctx, isEditor)
                        ==> p in s.files && s.files[p] == fs[p]
  {
    var primaryPath := PrimaryBuildPath(ctx, target, isEditor);
    var primary := RewriteRules(find, fs, primaryPath, PublicDependencyList, moduleName, o.primarySaveOk);
    RewriteRulesKeepsOthers(find, fs, primaryPath, PublicDependencyList, moduleName, o.primarySaveOk);
    if primary.Some? {
      RewriteRulesKeepsOthers(find, primary.value, TargetFilePath(ctx, isEditor), ExtraModuleList, moduleName, o.targetSaveOk);
    }
  }

  /** Rewriting one rules file changes no other file. */
  lemma RewriteRulesKeepsOthers(find: Finder, fs: FileStore, path: string, list: string, moduleName: string, saveOk: bool)
    requires SoundFinder(find)
    ensures var r := RewriteRules(find, fs, path, list, moduleName, saveOk);
            r.Some? ==> forall p :: p in fs && p != path ==> p in r.value && r.value[p] == fs[p]
  {
  }

  /** Deleting the log of a phase that only added the logged files, all fresh, deletes what earlier runs logged. */
  lemma DeleteFreshLogged(fs: FileStore, fs': FileStore, created: seq<string>, logged: seq<string>)
    requires forall p :: p in fs' <==> p in fs || p in logged
    requires forall p :: p in fs && p !in logged ==> fs'[p] == fs[p]
    requires forall p :: p in logged ==> p !in fs
    ensures DeleteCreatedFiles(fs', created + logged) == DeleteCreatedFiles(fs, created)
  {
  }

  /**
   * A write that fails, when the module's files did not exist before, leaves
   * the files as they were, less those logged by earlier runs.
   */
  lemma WriteFailureRestoresFiles(ctx: EngineContext, find: Finder, world: World, modulePath: string, target: Option<Plugin>,
                                  moduleName: string, hostType: HostType, usePCH: bool, createdFiles: seq<string>,
                                  o: EngineOutcomes)
    requires SoundFinder(find)
    requires forall p :: p in ModuleFiles(modulePath, moduleName) ==> p !in world.files
    requires WriteModuleFiles(ctx, world.files, modulePath, moduleName, usePCH, o).failure.Some?
    ensures var g := Generate(ctx, find, world, modulePath, target, moduleName, hostType, usePCH, createdFiles, o);
            && g.result == FailedToAddCode
            && g.world.files == DeleteCreatedFiles(world.files, createdFiles)
  {
    var s := WriteModuleFiles(ctx, world.files, modulePath, moduleName, usePCH, o);
    WriteModuleFilesFrame(ctx, world.files, modulePath, moduleName, usePCH, o);
    var files := ModuleFiles(modulePath, moduleName);
    assert forall p :: p in s.logged ==> p in files by {
      assert s.logged == [] || s.logged == files[..1] || s.logged == files[..2] || s.logged == files;
    }
    DeleteFreshLogged(world.files, s.files, createdFiles, s.logged);
    var g := Generate(ctx, find, world, modulePath, target, moduleName, hostType, usePCH, createdFiles, o);
    assert g == RolledBack(world, createdFiles + s.logged, s.files, s.failure.value);
  }

  /**
   * No undo of the rules edit: when the primary module's rules were
   * rewritten and saved but the project target has no declaration, the run
   * fails yet the primary rules keep the new dependency.
   */
  lemma TargetFailureKeepsPrimaryEdit(ctx: EngineContext, find: Finder, world: World, modulePath: string, target: Option<Plugin>,
                                      moduleName: string, hostType: HostType, usePCH: bool, createdFiles: seq<string>,
                                      o: EngineOutcomes)
    requires SoundFinder(find)
    requires WriteModuleFiles(ctx, world.files, modulePath, moduleName, usePCH, o).failure.None?
    requires var primary := PrimaryBuildPath(ctx, target, hostType == ctx.editorHostType);
             && primary in world.files && primary !in ModuleFiles(modulePath, moduleName) && primary !in createdFiles
             && primary != TargetFilePath(ctx, hostType == ctx.editorHostType)
             && find(PublicDependencyList, world.files[primary]).Some? && o.primarySaveOk
    requires TargetFilePath(ctx, hostType == ctx.editorHostType) !in world.files
    requires TargetFilePath(ctx, hostType == ctx.editorHostType) !in ModuleFiles(modulePath, moduleName)
    ensures var g := Generate(ctx, find, world, modulePath, target, moduleName, hostType, usePCH, createdFiles, o);
            var primary := PrimaryBuildPath(ctx, target, hostType == ctx.editorHostType);
            && g.result == FailedToAddCode
            && g.reason == Some(UpdateFailed(TargetFilePath(ctx, hostType == ctx.editorHostType)))
            && primary in g.world.files
            && g.world.files[primary]
               == Spliced(world.files[primary], find(PublicDependencyList, world.files[primary]).value, PublicDependencyList, moduleName)
  {
    var s := WriteModuleFiles(ctx, world.files, modulePath, moduleName, usePCH, o);
    WriteModuleFilesFrame(ctx, world.files, modulePath, moduleName, usePCH, o);
    var isEditor := hostType == ctx.editorHostType;
    var primary := PrimaryBuildPath(ctx, target, isEditor);
    assert s.files[primary] == world.files[primary];
    RegisterStopsAtTarget(ctx, find, s.files, target, moduleName, isEditor, o);
  }

  /** With the primary rules rewritten and the target rules missing, registration fails at the target, keeping the rewrite. */
  lemma RegisterStopsAtTarget(ctx: EngineContext, find: Finder, fs: FileStore, target: Option<Plugin>, moduleName: string,
                              isEditor: bool, o: EngineOutcomes)
    requires SoundFinder(find)
    requires var primary := PrimaryBuildPath(ctx, target, isEditor);
             && primary in fs && primary != TargetFilePath(ctx, isEditor)
             && find(PublicDependencyList, fs[primary]).Some? && o.primarySaveOk
    requires TargetFilePath(ctx, isEditor) !in fs
    ensures var r := RegisterModule(ctx, find, fs, target, moduleName, isEditor, o);
            var primary := PrimaryBuildPath(ctx, target, isEditor);
            && r.failure == Some(UpdateFailed(TargetFilePath(ctx, isEditor)))
            && primary in r.files
            && r.files[primary] == Spliced(fs[primary], find(PublicDependencyList, fs[primary]).value, PublicDependencyList, moduleName)
  {
  }

  /** A run that added code went through both phases and updated the project file. */
  lemma AddedCodeStages(ctx: EngineContext, find: Finder, world: World, modulePath: string, target: Option<Plugin>,
                        moduleName: string, hostType: HostType, usePCH: bool, createdFiles: seq<string>,
                        o: EngineOutcomes)
    requires SoundFinder(find)
    requires Generate(ctx, find, world, modulePath, target, moduleName, hostType, usePCH, createdFiles, o).result != FailedToAddCode
    ensures var g := Generate(ctx, find, world, modulePath, target, moduleName, hostType, usePCH, createdFiles, o);
            var w := WriteModuleFiles(ctx, world.files, modulePath, moduleName, usePCH, o);
            var r := RegisterModule(ctx, find, w.files, target, moduleName, hostType == ctx.editorHostType, o);
            && w.failure.None? && r.failure.None?
            && g.world.files == r.files
            && g.world.projects == UpdateGameProject(ctx, world.projects, Some(ProjectModifier([ModuleDescriptor(moduleName, hostType)])),
                                                     o.projectSaveOk, o.associateOk).1
            && (g.result, g.reason) == HotReload(o)
  {
  }

  /** A run that added code leaves the three module files on disk. */
  lemma AddedCodeKeepsModuleFiles(ctx: EngineContext, find: Finder, world: World, modulePath: string, target: Option<Plugin>,
                                  moduleName: string, hostType: HostType, usePCH: bool, createdFiles: seq<string>,
                                  o: EngineOutcomes)
    requires SoundFinder(find)
    ensures var g := Generate(ctx, find, world, modulePath, target, moduleName, hostType, usePCH, createdFiles, o);
            g.result != FailedToAddCode ==> forall p :: p in ModuleFiles(modulePath, moduleName) ==> p in g.world.files
  {
    var g := Generate(ctx, find, world, modulePath, target, moduleName, hostType, usePCH, createdFiles, o);
    if g.result != FailedToAddCode {
      AddedCodeStages(ctx, find, world, modulePath, target, moduleName, hostType, usePCH, createdFiles, o);
      var w := WriteModuleFiles(ctx, world.files, modulePath, moduleName, usePCH, o);
      WriteModuleFilesFrame(ctx, world.files, modulePath, moduleName, usePCH, o);
      RegisterModuleKeepsFiles(ctx, find, w.files, target, moduleName, hostType == ctx.editorHostType, o);
    }
  }

  /**
   * Once code was added the result is `Succeeded` exactly when the project
   * files were picked up and the module compiled; otherwise the engine
   * could not hot-reload it.
   */
  lemma AddedCodeResult(ctx: EngineContext, find: Finder, world: World, modulePath: string, target: Option<Plugin>,
                        moduleName: string, hostType: HostType, usePCH: bool, createdFiles: seq<string>,
                        o: EngineOutcomes)
    requires SoundFinder(find)
    ensures var g := Generate(ctx, find, world, modulePath, target, moduleName, hostType, usePCH, createdFiles, o);
            g.result != FailedToAddCode ==>
              && (g.result == Succeeded <==> (o.addSourceFilesOk || o.generateProjectFilesOk) && o.recompileOk)
              && (g.result == Succeeded <==> g.reason.None?)
  {
    var g := Generate(ctx, find, world, modulePath, target, moduleName, hostType, usePCH, createdFiles, o);
    if g.result != FailedToAddCode {
      AddedCodeStages(ctx, find, world, modulePath, target, moduleName, hostType, usePCH, createdFiles, o);
    }
  }

  /** Once code was added, a project file that loaded and saved lists the new module. */
  lemma AddedCodeRecordsModule(ctx: EngineContext, find: Finder, world: World, modulePath: string, target: Option<Plugin>,
                               moduleName: string, hostType: HostType, usePCH: bool, createdFiles: seq<string>,
                               o: EngineOutcomes)
    requires SoundFinder(find)
    requires ctx.projectFilePath in world.projects && o.projectSaveOk
    ensures var g := Generate(ctx, find, world, modulePath, target, moduleName, hostType, usePCH, createdFiles, o);
            g.result != FailedToAddCode ==>
              && ctx.projectFilePath in g.world.projects
              && g.world.projects[ctx.projectFilePath].modules
                 == MergeModules(world.projects[ctx.projectFilePath].modules, [ModuleDescriptor(moduleName, hostType)])
  {
    var g := Generate(ctx, find, world, modulePath, target, moduleName, hostType, usePCH, createdFiles, o);
    if g.result != FailedToAddCode {
      AddedCodeStages(ctx, find, world, modulePath, target, moduleName, hostType, usePCH, createdFiles, o);
      ScaffoldModifierAlwaysSaves(world.projects, ctx.projectFilePath, ctx.engineIdentifier,
                                  [ModuleDescriptor(moduleName, hostType)], o.projectSaveOk, o.associateOk);
    }
  }
}
