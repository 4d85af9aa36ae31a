/**
 * The new-module wizard's state: the chosen name, target and host type,
 * the option lists it offers, and the validity of the name as last
 * checked. Finishing runs module generation and reports back.
 */
module Dialog {
  import opened Wrappers
  import opened Text
  import opened Engine
  import opened Splice
  import opened Scaffold

  /** A place a module can go: the game project (no plugin) or one of its plugins. */
  datatype ModuleTarget = ModuleTarget(plugin: Option<Plugin>)

  /** How the name field was committed. */
  datatype TextCommit = Default | OnEnter | OnUserMovedFocus | OnCleared

  /** What the creation callback receives. */
  datatype CreatedModule = CreatedModule(name: string, target: ModuleTarget, hostType: HostType)

  /**
   * The engine queries the validity check makes, none of which is part of
   * this model: the legal-character check with the illegal characters it
   * reports, whether the project has code files, and whether a module of a
   * given name exists.
   */
  datatype DialogEnv = DialogEnv(
    nameCheck: string -> (bool, string),
    projectHasCodeFiles: bool,
    moduleExists: string -> bool)

  /** Why a name cannot be used, in the order the checks run. */
  datatype NameError = EmptyName | IllegalCharacters(characters: string) | NotCodeProject | AlreadyExists(name: string)

  /** The error text shown under the name field. */
  function ErrorText(e: NameError): string
  {
    match e
    case EmptyName => "You must enter a name to create a new module"
    case IllegalCharacters(characters) =>
      "The module name may not contain the following characters: '" + characters + "'"
    case NotCodeProject =>
      "A new module may not be added to a non-C++ project. Convert the project from Blueprint to C++ by adding a C++ class in the editor."
    case AlreadyExists(name) =>
      "Module '" + name + "' already exists. If this module was manually deleted, clean and rebuild the project."
  }

  /**
   * The first check the name fails, if any: empty, illegal characters, no
   * code in the project, module already present.
   */
  function Validate(env: DialogEnv, name: string): (r: Option<NameError>)
    ensures r.None? <==> name != [] && env.nameCheck(name).0 && env.projectHasCodeFiles && !env.moduleExists(name)
    ensures name == [] ==> r == Some(EmptyName)
    ensures r == Some(EmptyName) ==> name == []
    ensures r.Some? && r.value.IllegalCharacters? ==> name != [] && !env.nameCheck(name).0 && r.value.characters == env.nameCheck(name).1
    ensures r == Some(NotCodeProject) ==> name != [] && env.nameCheck(name).0 && !env.projectHasCodeFiles
    ensures r.Some? && r.value.AlreadyExists? ==> name != [] && env.nameCheck(name).0 && env.projectHasCodeFiles && env.moduleExists(name) && r.value.name == name
  {
    if name == [] then Some(EmptyName)
    else if !env.nameCheck(name).0 then Some(IllegalCharacters(env.nameCheck(name).1))
    else if !env.projectHasCodeFiles then Some(NotCodeProject)
    else if env.moduleExists(name) then Some(AlreadyExists(name))
    else None
  }

  /** The host types offered: every value of the enumeration below its count, in order. */
  function HostTypeOptions(count: nat): (r: seq<HostType>)
    ensures |r| == count && forall k :: 0 <= k < count ==> r[k] == k
  {
    seq(count, k => k)
  }

  /** The plugins a module can be added to: those loaded from the project, in discovery order. */
  function ProjectTargets(plugins: seq<Plugin>): seq<ModuleTarget>
  {
    if plugins == [] then []
    else
      var rest := ProjectTargets(plugins[..|plugins| - 1]);
      var last := plugins[|plugins| - 1];
      if last.loadedFromProject then rest + [ModuleTarget(Some(last))] else rest
  }

  /** Every target offered is a project plugin that was discovered, and every such plugin is offered. */
  lemma {:induction false} ProjectTargetsAreProjectPlugins(plugins: seq<Plugin>)
    ensures forall t :: t in ProjectTargets(plugins) ==>
              t.plugin.Some? && t.plugin.value in plugins && t.plugin.value.loadedFromProject
    ensures forall p :: p in plugins && p.loadedFromProject ==> ModuleTarget(Some(p)) in ProjectTargets(plugins)
    ensures |ProjectTargets(plugins)| <= |plugins|
  {
    if plugins != [] {
      var init := plugins[..|plugins| - 1];
      ProjectTargetsAreProjectPlugins(init);
      assert plugins == init + [plugins[|plugins| - 1]];
    }
  }

  /** The directory a module goes in, before conversion to a full path: `<source>/<name>/`. */
  function ModuleDirectory(ctx: EngineContext, target: ModuleTarget, moduleName: string): string
  {
    var base := if target.plugin.None? then ctx.gameSourceDir else PathJoin(target.plugin.value.baseDir, "Source");
    PathJoin(PathJoin(base, moduleName), "")
  }

  /** The module path the wizard passes on: the module directory as a full path. */
  function ModulePath(ctx: EngineContext, target: ModuleTarget, moduleName: string): string
  {
    ctx.toFullPath(ModuleDirectory(ctx, target, moduleName))
  }

  /**
   * The engine's game source directory ends with `/`, so a plain module
   * name goes directly under it, followed by a trailing `/`; the build rules
   * generated in it are then named by plain concatenation.
   */
  lemma ModuleDirectoryShape(ctx: EngineContext, moduleName: string)
    requires ctx.gameSourceDir != [] && IsSeparator(ctx.gameSourceDir[|ctx.gameSourceDir| - 1])
    requires moduleName != [] && !IsSeparator(moduleName[|moduleName| - 1])
    ensures ModuleDirectory(ctx, ModuleTarget(None), moduleName) == ctx.gameSourceDir + moduleName + "/"
    ensures BuildFilePath(ModuleDirectory(ctx, ModuleTarget(None), moduleName), moduleName)
            == ctx.gameSourceDir + moduleName + "/" + moduleName + ".Build.cs"
  {
    var joined := ctx.gameSourceDir + moduleName;
    PathJoinSeparates(ctx.gameSourceDir, moduleName);
    assert joined[|joined| - 1] == moduleName[|moduleName| - 1];
    PathJoinSeparates(joined, "");
    var dir := joined + "/";
    assert dir[|dir| - 1] == '/';
    PathJoinSeparates(dir, moduleName);
  }

  /**
   * A plugin's base directory carries no trailing separator, so its modules
   * go under `<base>/Source/<name>/`.
   */
  lemma PluginModuleDirectoryShape(ctx: EngineContext, plugin: Plugin, moduleName: string)
    requires plugin.baseDir != [] && !IsSeparator(plugin.baseDir[|plugin.baseDir| - 1])
    requires moduleName != [] && moduleName[0] != '/' && !IsSeparator(moduleName[|moduleName| - 1])
    ensures ModuleDirectory(ctx, ModuleTarget(Some(plugin)), moduleName) == plugin.baseDir + "/Source/" + moduleName + "/"
  {
    var source := plugin.baseDir + "/" + "Source";
    PathJoinSeparates(plugin.baseDir, "Source");
    assert source[|source| - 1] == 'e';
    var joined := source + "/" + moduleName;
    PathJoinSeparates(source, moduleName);
    assert joined[|joined| - 1] == moduleName[|moduleName| - 1];
    PathJoinSeparates(joined, "");
    assert joined + "/" == plugin.baseDir + "/Source/" + moduleName + "/";
  }

  class CreateModuleDialog {
    const ctx: EngineContext
    const env: DialogEnv
    /** Whether a creation callback was supplied. */
    const onCreateBound: bool
    const availableModuleTypes: seq<HostType>
    const availableTargets: seq<ModuleTarget>

    var moduleName: string
    var moduleTarget: ModuleTarget
    var moduleType: HostType
    var lastInputValid: bool
    var lastErrorText: string
    /** Callbacks delivered so far, oldest first. */
    var notified: seq<CreatedModule>
    /** Whether the window was asked to close. */
    var closeRequested: bool

    /** The option lists are as built, and the validity flag is up to date with the name. */
    predicate Valid()
      reads this
    {
      && availableModuleTypes == HostTypeOptions(ctx.hostTypeMax)
      && |availableTargets| >= 1 && availableTargets[0] == ModuleTarget(None)
      && lastInputValid == Validate(env, moduleName).None?
      && (!lastInputValid ==> lastErrorText == ErrorText(Validate(env, moduleName).value))
    }

    /**
     * Builds the option lists, fills in a missing target or type with the
     * first option, and checks the initial name.
     */
    constructor(ctx: EngineContext, env: DialogEnv, discoveredPlugins: seq<Plugin>, onCreateBound: bool,
                initialName: string, initialTarget: Option<ModuleTarget>, initialType: Option<HostType>)
      requires initialType.Some? || ctx.hostTypeMax > 0
      ensures Valid()
      ensures this.ctx == ctx && this.env == env && this.onCreateBound == onCreateBound
      ensures availableTargets == [ModuleTarget(None)] + ProjectTargets(discoveredPlugins)
      ensures moduleName == initialName
      ensures moduleTarget == if initialTarget.Some? then initialTarget.value else ModuleTarget(None)
      ensures moduleType == if initialType.Some? then initialType.value else 0
      ensures notified == [] && !closeRequested
    {
      // One option per host type, in enumeration order.
      var types: seq<HostType> := [];
      var i := 0;
      while i < ctx.hostTypeMax
        invariant 0 <= i <= ctx.hostTypeMax
        invariant types == HostTypeOptions(i)
      {
        types := types + [i];
        i := i + 1;
      }

      // The game project first, then the plugins loaded from it.
      var targets := [ModuleTarget(None)];
      var j := 0;
      while j < |discoveredPlugins|
        invariant 0 <= j <= |discoveredPlugins|
        invariant targets == [ModuleTarget(None)] + ProjectTargets(discoveredPlugins[..j])
      {
        var plugin := discoveredPlugins[j];
        assert discoveredPlugins[..j + 1][..j] == discoveredPlugins[..j];
        if plugin.loadedFromProject {
          targets := targets + [ModuleTarget(Some(plugin))];
        }
        j := j + 1;
      }
      assert discoveredPlugins[..j] == discoveredPlugins;

      this.ctx := ctx;
      this.env := env;
      this.onCreateBound := onCreateBound;
      availableModuleTypes := types;
      availableTargets := targets;
      moduleName := initialName;
      moduleTarget := if initialTarget.Some? then initialTarget.value else targets[0];
      moduleType := if initialType.Some? then initialType.value else types[0];
      notified := [];
      closeRequested := false;
      lastInputValid := true;
      lastErrorText := [];
      new;
      UpdateInputValidity();
    }

    /**
     * Runs the name checks in order; the first that fails clears the
     * validity flag and sets its error text. When all pass the flag is set
     * and the old error text is left in place.
     */
    method UpdateInputValidity()
      modifies this
      ensures lastInputValid == Validate(env, moduleName).None?
      ensures !lastInputValid ==> lastErrorText == ErrorText(Validate(env, moduleName).value)
      ensures lastInputValid ==> lastErrorText == old(lastErrorText)
      ensures moduleName == old(moduleName) && moduleTarget == old(moduleTarget) && moduleType == old(moduleType)
      ensures notified == old(notified) && closeRequested == old(closeRequested)
    {
      lastInputValid := true;
      if moduleName == [] {
        lastInputValid := false;
        lastErrorText := ErrorText(EmptyName);
        return;
      } else if !env.nameCheck(moduleName).0 {
        lastInputValid := false;
        lastErrorText := ErrorText(IllegalCharacters(env.nameCheck(moduleName).1));
        return;
      }
      if !env.projectHasCodeFiles {
        lastInputValid := false;
        lastErrorText := ErrorText(NotCodeProject);
        return;
      }
      if env.moduleExists(moduleName) {
        lastInputValid := false;
        lastErrorText := ErrorText(AlreadyExists(moduleName));
        return;
      }
    }

    /** Whether the finish button is enabled: the outcome of the last check. */
    function CanFinish(): bool
      reads this
    {
      lastInputValid
    }

    /** The text under the name field: empty while the last check passed. */
    function NameErrorLabelText(): (t: string)
      reads this
      ensures !lastInputValid ==> t == lastErrorText
      ensures lastInputValid ==> t == []
      ensures t == [] <==> lastInputValid || lastErrorText == []
    {
      if !lastInputValid then lastErrorText else []
    }

    /**
     * Stores the edited name and checks it again: finishing is possible
     * exactly when the new name passes every check, and the label shows the
     * first failed check's text or nothing.
     */
    method OnModuleNameTextChanged(newText: string)
      requires Valid()
      modifies this
      ensures Valid()
      ensures moduleName == newText
      ensures CanFinish() <==> newText != [] && env.nameCheck(newText).0 && env.projectHasCodeFiles && !env.moduleExists(newText)
      ensures NameErrorLabelText() == if CanFinish() then [] else ErrorText(Validate(env, newText).value)
      ensures moduleTarget == old(moduleTarget) && moduleType == old(moduleType)
      ensures notified == old(notified) && closeRequested == old(closeRequested)
    {
      moduleName := newText;
      UpdateInputValidity();
    }

    method OnModuleTargetChanged(value: ModuleTarget)
      requires Valid()
      modifies this
      ensures Valid()
      ensures moduleTarget == value
      ensures moduleName == old(moduleName) && moduleType == old(moduleType) && lastInputValid == old(lastInputValid)
      ensures lastErrorText == old(lastErrorText) && notified == old(notified) && closeRequested == old(closeRequested)
    {
      moduleTarget := value;
    }

    method OnModuleTypeChanged(value: HostType)
      requires Valid()
      modifies this
      ensures Valid()
      ensures moduleType == value
      ensures moduleName == old(moduleName) && moduleTarget == old(moduleTarget) && lastInputValid == old(lastInputValid)
      ensures lastErrorText == old(lastErrorText) && notified == old(notified) && closeRequested == old(closeRequested)
    {
      moduleType := value;
    }

    /**
     * Generates the module for the current choices, with no precompiled
     * header setting and an empty created-files log. The callback fires
     * when code was added, even if hot reload failed; the window is asked
     * to close whatever the outcome.
     */
    method FinishClicked(find: Finder, world: World, o: EngineOutcomes) returns (world': World, result: AddCodeResult)
      requires SoundFinder(find)
      requires Valid()
      modifies this
      ensures Valid()
      ensures var g := Generate(ctx, find, world, ModulePath(ctx, old(moduleTarget), old(moduleName)), old(moduleTarget).plugin,
                                old(moduleName), old(moduleType), false, [], o);
              result == g.result && world' == g.world
      ensures notified == old(notified) +
                (if onCreateBound && result != FailedToAddCode then [CreatedModule(moduleName, moduleTarget, moduleType)] else [])
      ensures closeRequested
      ensures moduleName == old(moduleName) && moduleTarget == old(moduleTarget) && moduleType == old(moduleType)
      ensures lastInputValid == old(lastInputValid) && lastErrorText == old(lastErrorText)
    {
      var name, target, hostType := moduleName, moduleTarget, moduleType;
      var created, reason;
      result, created, world', reason := GenerateModule(ctx, find, world, ModulePath(ctx, target, name),
                                                        target.plugin, name, hostType, false, [], o);
      ReportOutcome(result);
    }

    /**
     * Hands the new module to the creation callback when code was added,
     * even if hot reload failed, and asks the window to close.
     */
    method ReportOutcome(result: AddCodeResult)
      requires Valid()
      modifies this
      ensures Valid()
      ensures notified == old(notified) +
                (if onCreateBound && result != FailedToAddCode then [CreatedModule(moduleName, moduleTarget, moduleType)] else [])
      ensures closeRequested
      ensures moduleName == old(moduleName) && moduleTarget == old(moduleTarget) && moduleType == old(moduleType)
      ensures lastInputValid == old(lastInputValid) && lastErrorText == old(lastErrorText)
    {
      if result == Succeeded {
        if onCreateBound {
          notified := notified + [CreatedModule(moduleName, moduleTarget, moduleType)];
        }
      } else if result == FailedToHotReload {
        if onCreateBound {
          notified := notified + [CreatedModule(moduleName, moduleTarget, moduleType)];
        }
        closeRequested := true;
      }
      closeRequested := true;
    }

    /**
     * Committing the name with Enter finishes when finishing is possible;
     * any other commit does nothing. The committed text itself is not
     * stored: the name is the one last edited.
     */
    method OnModuleNameTextCommitted(newText: string, commit: TextCommit, find: Finder, world: World, o: EngineOutcomes)
      returns (finished: bool, world': World)
      requires SoundFinder(find)
      requires Valid()
      modifies this
      ensures Valid()
      ensures finished <==> commit == OnEnter && old(lastInputValid)
      ensures !finished ==> world' == world && notified == old(notified) && closeRequested == old(closeRequested)
      ensures finished ==> world' == Generate(ctx, find, world, ModulePath(ctx, moduleTarget, moduleName), moduleTarget.plugin,
                                              moduleName, moduleType, false, [], o).world && closeRequested
      ensures var added := Generate(ctx, find, world, ModulePath(ctx, moduleTarget, moduleName), moduleTarget.plugin,
                                    moduleName, moduleType, false, [], o).result != FailedToAddCode;
              var created := if onCreateBound && added then [CreatedModule(moduleName, moduleTarget, moduleType)] else [];
              finished ==> notified == old(notified) + created
      ensures lastInputValid == old(lastInputValid) && lastErrorText == old(lastErrorText)
      ensures moduleName == old(moduleName) && moduleTarget == old(moduleTarget) && moduleType == old(moduleType)
    {
      finished := false;
      world' := world;
      if commit == OnEnter {
        if CanFinish() {
          var result;
          world', result := FinishClicked(find, world, o);
          finished := true;
        }
      }
    }
  }
}
