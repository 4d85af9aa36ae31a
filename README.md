# Module scaffolding for an Unreal Engine project, modelled in Dafny

This project models the part of the `CppTools` editor plugin that adds a
new C++ module to a game project or to one of its plugins. The model is
split into these parts:

- **Text** (`text.dfy`): the engine string's case-sensitive `Replace`, the
  path operator `/`, and ASCII `ToUpper`.
- **Render** (`render.dfy`): template rendering for the three files of a
  module: `<Name>.Build.cs`, `Public/<Name>.h` and `Private/<Name>.cpp`.
  Each template is read from the plugin's `Content/Editor/Templates`
  folder and its `%TOKEN%` placeholders are replaced in a fixed order.
- **Splice** (`splice.dfy`): the dependency-list rewriter. It finds the
  first `List.AddRange( new string[] { ... } );` declaration in a rules
  file, cuts it out and inserts a canonical declaration. The new list is
  the captured entries followed by the quoted module name. This is done
  for the primary module's `.Build.cs` and for the project's `.Target.cs`.
  The regular-expression matcher is a parameter, constrained by
  `SoundFinder`: it reports a declaration exactly when the text holds
  one, and it reports the leftmost one.
- **Descriptors** (`descriptor.dfy`): the project file (`.uproject`) and
  the modules it lists. It covers appending the generated module records
  that are not listed yet, and the load / modify / save / associate cycle.
- **Scaffold** (`pipeline.dfy`): the generation run. It writes the three
  files, logging each one, then registers the module in the two rules
  files. A failure in any of these five steps deletes the logged files.
  After that the run updates the project file and hands over to the
  engine's source navigation and hot reload.
- **Dialog** (`dialog.dfy`): the new-module wizard as a class. It holds the
  chosen name, target and host type, the option lists, and the outcome
  of the last name check. Its event handlers update that state, and
  finishing runs the generation.

Engine services are parameters, not part of this model. They are:

- the file system, as a map from path to contents;
- parsed project files, as a map from path to descriptor;
- the outcome of every write, save, project-file generation and
  recompile;
- the comma-list and include-list builders;
- path conversion to a full path;
- the legal-character check and the module registry.

Behaviour of the code worth noting:

- Module names in the project file are compared as engine names, which
  ignore ASCII letter case. A case variant of a listed module is not
  appended (`Descriptors.CaseVariantNotAppended`).
- The project file is always the one updated, even for a plugin target.
  The primary module is found by naming convention, not by searching the
  plugin's modules, and the target step runs for plugin targets too.
- Nothing written to the two rules files is undone when a later step
  fails (`Scaffold.TargetFailureKeepsPrimaryEdit`). Only the logged files
  are deleted. The log is not emptied and deletion order plays no role.
- The rewritten declaration keeps the blank that the greedy capture takes
  from before `}`. Adding `Gameplay` to `{ "Core", "Engine" }` therefore
  gives `"Core", "Engine" , "Gameplay"`. A second insertion of the same
  name appends it again, with no deduplication
  (`Splice.CompactLineInsert`, `Splice.SecondInsertGrows`,
  `Splice.ExampleInsertTwice`).
- A failed compile after the project-file update is ignored, as is the
  outcome of the project-file update itself.
- The source file's shutdown placeholder receives the startup code
  (`Render.ShutdownGetsStartupCode`).

## Model

| member | source | states |
|---|---|---|
| Text.Replace | Source/CppToolsEditor/Private/CppToolsUtil.cpp:56-62 | replacing with an empty placeholder leaves the text unchanged |
| Text.ReplaceLeftmost | Source/CppToolsEditor/Private/CppToolsUtil.cpp:56-62 | the leftmost occurrence is replaced, the text before it is copied, and scanning resumes after it (no overlapping matches) |
| Text.ReplaceAbsent | Source/CppToolsEditor/Private/CppToolsUtil.cpp:56-62 | text with no occurrence of the placeholder is returned unchanged |
| Text.ReplaceSelf | Source/CppToolsEditor/Private/CppToolsUtil.cpp:56-62 | replacing a placeholder by itself is the identity |
| Text.ReplacePrefixCopied | Source/CppToolsEditor/Private/CppToolsUtil.cpp:56-62 | until the first replacement the output copies the input |
| Text.ReplaceLeavesNone | Source/CppToolsEditor/Private/CppToolsUtil.cpp:56-62 | a non-empty value sharing no character with the placeholder leaves no occurrence of it behind |
| Text.EmptyValueReformsPlaceholder | Source/CppToolsEditor/Private/CppToolsUtil.cpp:56-62 | with an empty value a placeholder can re-form from the surrounding text, so the non-empty condition is needed |
| Text.PathJoinSeparates | Source/CppToolsEditor/Private/CppToolsUtil.cpp:19 | the path operator puts exactly one `/` between parts that bring none, none after an empty left side or a trailing separator, and adds a trailing `/` when joining the empty string |
| Text.UpperChar | Source/CppToolsEditor/Private/CppToolsUtil.cpp:44 | lower-case ASCII letters map to their upper-case letter; every other character is kept |
| Text.ToUpper | Source/CppToolsEditor/Private/CppToolsUtil.cpp:44 | upper-casing keeps the length and works character by character |
| Render.GetCopyrightLine | Source/CppToolsEditor/Private/CppToolsUtil.cpp:31-41 | the line is empty exactly when the notice is; otherwise it is `// ` followed by the notice |
| Render.GetModuleAPIMacro | Source/CppToolsEditor/Private/CppToolsUtil.cpp:43-45 | a private module gets no macro; otherwise the macro is the upper-cased name followed by `_API ` |
| Render.GenerateFromTemplate | Source/CppToolsEditor/Private/CppToolsUtil.cpp:18-29 | fails with the template path when the template cannot be read and with the output path when the write fails; otherwise exactly the output file is set to the rendered template |
| Render.ApplyAllSlot | Source/CppToolsEditor/Private/CppToolsUtil.cpp:56-62 | a placeholder becomes its own value, given that no earlier step has the same placeholder and later steps find no `%` in the value |
| Render.ApplyAllSlotInText | Source/CppToolsEditor/Private/CppToolsUtil.cpp:47-95 | a placeholder standing between pieces of template text without `%` becomes its value, and the surrounding text is kept |
| Render.ReplaceJoin | Source/CppToolsEditor/Private/CppToolsUtil.cpp:56-62 | a placeholder used several times between pieces without `%` is replaced at every use, and the pieces are kept |
| Render.ApplyAllJoin | Source/CppToolsEditor/Private/CppToolsUtil.cpp:47-95 | a placeholder used several times between pieces of template text without `%` renders to its value at every use, given that no earlier step's placeholder occurs in the template |
| Render.ApplyAllUnchanged | Source/CppToolsEditor/Private/CppToolsUtil.cpp:56-62 | text without `%` passes through every replacement step unchanged |
| Render.TokenDistinct | Source/CppToolsEditor/Private/CppToolsUtil.cpp:56-62 | one placeholder never occurs inside a different one |
| Render.PchUsageRendered | Source/CppToolsEditor/Private/CppToolsUtil.cpp:61-62 | `%PCH_USAGE%` becomes `UseExplicitOrSharedPCHs` or `UseSharedPCHs`, as the flag says |
| Render.BuildModuleNameRendered | Source/CppToolsEditor/Private/CppToolsUtil.cpp:59 | `%MODULE_NAME%` in the build rules becomes the module name |
| Render.ApiMacroRendered | Source/CppToolsEditor/Private/CppToolsUtil.cpp:76 | `%CLASS_MODULE_API_MACRO%` in the header becomes the upper-cased name followed by `_API ` |
| Render.ShutdownGetsStartupCode | Source/CppToolsEditor/Private/CppToolsUtil.cpp:91-92 | the shutdown placeholder receives the startup code, whatever the shutdown code is |
| Render.CopyrightRendered | Source/CppToolsEditor/Private/CppToolsUtil.cpp:56 | `%COPYRIGHT_LINE%` becomes `// ` and the notice, or nothing when the notice is empty |
| Render.NoticeIsRenderedToo | Source/CppToolsEditor/Private/CppToolsUtil.cpp:56-59 | replacement is sequential, so a placeholder inside the notice is rewritten by a later step |
| Render.PlainTemplateVerbatim | Source/CppToolsEditor/Private/CppToolsUtil.cpp:47-95 | a template without `%` is written out verbatim by each of the three renderers |
| Splice.LeftmostIsSound | Source/CppToolsEditor/Private/CppToolsUtil.cpp:115-119 | a matcher meeting the finder contract exists: it returns a leftmost declaration |
| Splice.FinderAgreesWithText | Source/CppToolsEditor/Private/CppToolsUtil.cpp:115-119 | a sound matcher succeeds exactly on texts holding a declaration, and any two sound matchers agree on where it starts |
| Splice.Spliced | Source/CppToolsEditor/Private/CppToolsUtil.cpp:121-130 | the rewritten text keeps everything before and after the span, with the canonical declaration in place of the span |
| Splice.InsertionTextIsCanonical | Source/CppToolsEditor/Private/CppToolsUtil.cpp:126-128 | filling `MODULES` in the insertion template gives the canonical declaration: the captured entries, `, `, then the quoted name |
| Splice.RewriteFirstDeclaration | Source/CppToolsEditor/Private/CppToolsUtil.cpp:115-130 | succeeds exactly when a declaration is found, and then yields the spliced text; otherwise the text is unchanged |
| Splice.InsertDependencyIntoPrimaryBuild | Source/CppToolsEditor/Private/CppToolsUtil.cpp:97-144 | succeeds exactly when the primary rules file exists and holds a public-dependency declaration; it then stores the spliced text if the save succeeds; otherwise it fails naming the file and changes nothing |
| Splice.InsertDependencyIntoTarget | Source/CppToolsEditor/Private/CppToolsUtil.cpp:146-213 | the same for the extra-modules declaration of the target rules; no fallback insertion |
| Splice.CanonicalGreedyReading | Source/CppToolsEditor/Private/CppToolsUtil.cpp:115-128 | the inserted declaration is again a declaration of the list, whose greedy capture includes the blank before `}` |
| Splice.SecondInsertGrows | Source/CppToolsEditor/Private/CppToolsUtil.cpp:115-128 | inserting the same name again appends it again: the text grows by the name plus five characters |
| Splice.SpliceKeepsOutside | Source/CppToolsEditor/Private/CppToolsUtil.cpp:121-130 | every character outside the span is kept, and the text after the span is shifted by the change in length |
| Splice.CompactLineInsert | Source/CppToolsEditor/Private/CppToolsUtil.cpp:115-128 | a one-line declaration written as `(new string[] { E });` is read with `E ` as capture and rewritten to `( new string[] { E , "Name" } );` |
| Splice.RewrittenLineInsert | Source/CppToolsEditor/Private/CppToolsUtil.cpp:115-128 | a rewritten line, rewritten again, gets ` , "Name"` appended after its names |
| Splice.ExampleInsertTwice | Source/CppToolsEditor/CppToolsEditor.Build.cs:12 | adding `Gameplay` twice to this plugin's own dependency line lists it twice |
| Descriptors.MergeModules | Source/CppToolsEditor/Private/CppToolsUtil.cpp:431-451 | the merged list keeps the existing records as its prefix and appends only records taken from the added list, at most one per record |
| Descriptors.AppendProjectModules | Source/CppToolsEditor/Private/CppToolsUtil.cpp:431-451 | with no list it reports false and changes nothing; otherwise it reports true and the module list becomes the merge |
| Descriptors.ListsModule | Source/CppToolsEditor/Private/CppToolsUtil.cpp:438-443 | the inner scan finds a match exactly when some record has the name |
| Descriptors.SameNameIsEquivalence | Source/CppToolsEditor/Private/CppToolsUtil.cpp:440 | name comparison is reflexive, symmetric and transitive |
| Descriptors.HasModuleAppend | Source/CppToolsEditor/Private/CppToolsUtil.cpp:445 | after appending one record, a name is listed exactly when it was listed before or is that record's name |
| Descriptors.MergeHasExactlyNames | Source/CppToolsEditor/Private/CppToolsUtil.cpp:431-451 | after the merge a name is listed exactly when it was listed before or is among the added records |
| Descriptors.MergeKeepsNamesUnique | Source/CppToolsEditor/Private/CppToolsUtil.cpp:431-451 | a list with unique names keeps them unique, even when the added records repeat a name |
| Descriptors.MergeIdempotent | Source/CppToolsEditor/Private/CppToolsUtil.cpp:431-451 | merging the same records a second time changes nothing |
| Descriptors.MergeAppendsFreshRecords | Source/CppToolsEditor/Private/CppToolsUtil.cpp:431-451 | the merge appends, in the order given, exactly the first added record of each name that was not listed before |
| Descriptors.MergeNothingNew | Source/CppToolsEditor/Private/CppToolsUtil.cpp:431-451 | merging records whose names are all listed already changes nothing |
| Descriptors.MergeFreshModule | Source/CppToolsEditor/Private/CppToolsUtil.cpp:445 | an unlisted module is appended at the end |
| Descriptors.MergeListedModule | Source/CppToolsEditor/Private/CppToolsUtil.cpp:440-443 | a module already listed, in any letter case, is not appended |
| Descriptors.CaseVariantNotAppended | Source/CppToolsEditor/Private/CppToolsUtil.cpp:440 | `GAMEPLAY` is not appended to a list holding `Gameplay` |
| Descriptors.UpdateGameProjectFile | Source/CppToolsEditor/Private/CppToolsUtil.cpp:377-391 | fails without change when the file does not load; succeeds without saving when the modifier declines; otherwise it saves and then associates the engine, succeeding when both do; no other project file changes |
| Descriptors.UpdateGameProject | Source/CppToolsEditor/Private/CppToolsUtil.cpp:393-420 | succeeds exactly when the current project file loads and either the modifier declines or both the save and the association succeed |
| Descriptors.ProjectModifier | Source/CppToolsEditor/Private/CppToolsUtil.cpp:302-314 | whatever the descriptor, the run's modifier asks for a save, keeps the engine association, keeps the old module records as a prefix and appends only generated records |
| Descriptors.ProjectModifierListsExactly | Source/CppToolsEditor/Private/CppToolsUtil.cpp:302-314 | after the modifier a module name is listed exactly when it was listed before or is a generated module's name |
| Descriptors.ScaffoldModifierAlwaysSaves | Source/CppToolsEditor/Private/CppToolsUtil.cpp:302-316 | with that modifier a loadable project file is saved with the merged module list, and the update succeeds exactly when the association does |
| Scaffold.DeleteCreatedFiles | Source/CppToolsEditor/Private/CppToolsUtil.cpp:239-242 | exactly the logged files are removed; every other file keeps its contents |
| Scaffold.WriteModuleFiles | Source/CppToolsEditor/Private/CppToolsUtil.cpp:226-276 | the log is a prefix of build rules, header and source file, and is complete when no write failed |
| Scaffold.RegisterModule | Source/CppToolsEditor/Private/CppToolsUtil.cpp:280-298 | the registration steps log no file |
| Scaffold.GenerateModuleFiles | Source/CppToolsEditor/Private/CppToolsUtil.cpp:226-276 | the three write steps, as run, produce the file phase's log, files and failure |
| Scaffold.RegisterDependencies | Source/CppToolsEditor/Private/CppToolsUtil.cpp:280-298 | the primary rules edit, then the target rules edit, stopping at the first failure, as the registration phase describes |
| Scaffold.GenerateModule | Source/CppToolsEditor/Private/CppToolsUtil.cpp:215-375 | the full run yields the result, log, world and reason of the run as a value |
| Scaffold.CreatedIsPrefixOfModuleFiles | Source/CppToolsEditor/Private/CppToolsUtil.cpp:226-276 | the log grows by a prefix of the three module files in creation order, and by all three whenever code was added |
| Scaffold.FailureDeletesLoggedFiles | Source/CppToolsEditor/Private/CppToolsUtil.cpp:238-296 | a run that fails to add code has removed every logged file, left the project files untouched and names a reason |
| Scaffold.FailureKeepsOtherFiles | Source/CppToolsEditor/Private/CppToolsUtil.cpp:238-296 | a run that fails to add code keeps every file it did not log, with its contents unless it is one of the two rules files |
| Scaffold.RegisterModuleKeepsOthers | Source/CppToolsEditor/Private/CppToolsUtil.cpp:280-298 | registration changes the contents of no file but the primary build rules and the target rules |
| Scaffold.WriteModuleFilesFrame | Source/CppToolsEditor/Private/CppToolsUtil.cpp:226-276 | the write phase adds exactly the files it logged and changes no other file |
| Scaffold.RegisterModuleKeepsFiles | Source/CppToolsEditor/Private/CppToolsUtil.cpp:280-298 | registration rewrites files in place and adds or removes none |
| Scaffold.WriteFailureRestoresFiles | Source/CppToolsEditor/Private/CppToolsUtil.cpp:238-274 | when the module's files did not exist before, a failed write leaves the file store as it was, less the files logged by earlier runs |
| Scaffold.TargetFailureKeepsPrimaryEdit | Source/CppToolsEditor/Private/CppToolsUtil.cpp:280-298 | when the target rules are missing, the run fails naming them, yet the primary rules keep the inserted dependency |
| Scaffold.AddedCodeStages | Source/CppToolsEditor/Private/CppToolsUtil.cpp:300-374 | a run that added code passed both phases, updated the project file, and took its result from the hot-reload steps |
| Scaffold.AddedCodeKeepsModuleFiles | Source/CppToolsEditor/Private/CppToolsUtil.cpp:226-298 | a run that added code leaves the three module files on disk |
| Scaffold.AddedCodeResult | Source/CppToolsEditor/Private/CppToolsUtil.cpp:343-374 | once code was added, the run succeeds exactly when the files reached the source navigation or the project files were regenerated, and the module recompiled; it reports a reason exactly when it did not succeed |
| Scaffold.AddedCodeRecordsModule | Source/CppToolsEditor/Private/CppToolsUtil.cpp:300-316 | once code was added, a project file that loads and saves lists the new module, merged into its module list |
| Dialog.Validate | Source/CppToolsEditor/Private/CreateModuleDialog.cpp:442-473 | a name passes exactly when it is non-empty, legal, the project has code and no module has the name; otherwise the first failed check, in the order empty, illegal characters, no code, already exists, is reported: each reported error implies its own check failed and every earlier one passed |
| Dialog.HostTypeOptions | Source/CppToolsEditor/Private/CreateModuleDialog.cpp:16-21 | one option per host type, in enumeration order |
| Dialog.ProjectTargetsAreProjectPlugins | Source/CppToolsEditor/Private/CreateModuleDialog.cpp:26-37 | every plugin target offered is a discovered plugin loaded from the project, and every such plugin is offered |
| Dialog.ModuleDirectoryShape | Source/CppToolsEditor/Private/CreateModuleDialog.cpp:436-439 | for the game target, with the engine's source directory ending in `/` and a name without a trailing separator, the module directory is `<source><name>/` and the build rules go to `<source><name>/<name>.Build.cs` |
| Dialog.PluginModuleDirectoryShape | Source/CppToolsEditor/Private/CreateModuleDialog.cpp:436-439 | for a plugin target whose base directory has no trailing separator, the module directory is `<base>/Source/<name>/` |
| Dialog.CreateModuleDialog.constructor | Source/CppToolsEditor/Private/CreateModuleDialog.cpp:9-38 | builds the option lists (the game project first, then the project's plugins), fills a missing target or type with the first option, and checks the initial name |
| Dialog.CreateModuleDialog.UpdateInputValidity | Source/CppToolsEditor/Private/CreateModuleDialog.cpp:442-473 | the validity flag is the outcome of the checks; on failure the error text is that of the first failed check, and on success the old text stays |
| Dialog.CreateModuleDialog.NameErrorLabelText | Source/CppToolsEditor/Private/CreateModuleDialog.cpp:369-377 | the label shows the stored error text when the last check failed and nothing when it passed |
| Dialog.CreateModuleDialog.OnModuleNameTextChanged | Source/CppToolsEditor/Private/CreateModuleDialog.cpp:385-388 | stores the name; finishing becomes possible exactly when the name passes every check, and the label shows the first failure's text or nothing |
| Dialog.CreateModuleDialog.OnModuleTargetChanged | Source/CppToolsEditor/Private/CreateModuleDialog.cpp:406-408 | stores the target and changes nothing else |
| Dialog.CreateModuleDialog.OnModuleTypeChanged | Source/CppToolsEditor/Private/CreateModuleDialog.cpp:421-423 | stores the host type and changes nothing else |
| Dialog.CreateModuleDialog.FinishClicked | Source/CppToolsEditor/Private/CreateModuleDialog.cpp:299-350 | runs generation for the current choices, without PCH and with an empty log; the callback fires when code was added, even if hot reload failed; the window is always asked to close |
| Dialog.CreateModuleDialog.ReportOutcome | Source/CppToolsEditor/Private/CreateModuleDialog.cpp:310-349 | on success or a hot-reload failure the bound callback receives the module, and the window is asked to close whatever the result |
| Dialog.CreateModuleDialog.OnModuleNameTextCommitted | Source/CppToolsEditor/Private/CreateModuleDialog.cpp:390-398 | finishes exactly when the commit is by Enter and the last check passed; finishing runs generation, fires the callback when code was added and asks to close; otherwise nothing changes; the check outcome and its text are kept |

## Left out

- The regular-expression engine is a parameter, not part of this model.
  `SoundFinder` requires it to report the leftmost declaration that is
  shaped as the pattern allows. Which capture a greedy `(.*)` takes is
  stated as the reading `Splice.CanonicalGreedyReading` gives. Whitespace
  is the ASCII set, and `.` excludes only the line terminators listed in
  `Splice.SingleLine`.
- Text.ToUpper: upper-cases ASCII letters only; the engine's full Unicode
  case mapping is not part of this model.
- Descriptors.SameName: name comparison is modelled as equality after
  ASCII upper-casing; the engine's name table and its hashing are not
  part of this model.
- Engine helpers are parameters of `Engine.EngineContext` and
  `Dialog.DialogEnv`, not part of this model. They are: the comma-delimited
  and include-list builders, conversion to a full path, the legal-name
  check, the project-has-code query and the module registry.
- The outcomes of file writes, saves, the engine association, adding
  source files, project-file generation and recompiling are inputs
  (`Scaffold.EngineOutcomes`).
- The Unreal Build Tool run (CppToolsUtil.cpp:322-328) is left out: its
  result is ignored by the source, and its effect, building the project,
  is outside the model. Later compiling is reflected only by the outcome
  inputs.
- The reset of the engine's module-path cache (CppToolsUtil.cpp:330) is
  left out; the cache is engine state outside the model.
- The source-control mark-for-add step (CppToolsUtil.cpp:332-339) is
  left out. It changes no state the model has, and as written it uses
  the converted file list before that list is declared.
- Making the project file writable (CppToolsUtil.cpp:381), by checking
  it out of source control or clearing its read-only flag, is left out;
  it changes no state the model has.
- The slow-task progress dialog, notifications, message boxes, the
  Output Log tab and project reload after success are left out. So are
  the combo-box labels, the global compiler error label and the Slate
  widget layout. None of them changes the model's state.
- Scaffold.DeleteCreatedFiles: removes the logged files only; removing
  the directories created for them is not part of this model.
- Scaffold.DeleteCreatedFiles: every delete is taken to succeed. The
  engine's clean-up helper is best effort and reports nothing, so a
  failed delete would leave a logged file behind; the clean-up
  guarantees of `Scaffold.FailureDeletesLoggedFiles` and
  `Scaffold.WriteFailureRestoresFiles` rest on this.
- Descriptors.AppendProjectModules: the reset of the engine's cached list
  of project modules after the merge (CppToolsUtil.cpp:448) is left out;
  the cache is engine state outside the model.
- Scaffold.GenerateModule: the new-module broadcast to source navigation
  listeners on success (CppToolsUtil.cpp:372) is left out; its listeners
  are engine code outside the model, and it changes no state the model has.
- The template folder is the plugin's content folder, passed in as
  `pluginContentDir`; the plugin lookup behind it is not part of this
  model.
- The commented-out fallback that inserts a new extra-modules declaration
  into the target's constructor is not part of the source's behaviour
  and is not modelled.
- Dialog.ErrorText: the four messages are reproduced; it is not proved
  that each is non-empty.
- Dialog.CreateModuleDialog.constructor: the discovered plugins are a
  parameter; the plugin manager is not part of this model.
- CancelClicked only closes the window and is not modelled.
