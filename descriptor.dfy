/**
 * The project descriptor (the `.uproject` file, as parsed records) and the
 * two operations on it: appending module records that are not listed yet,
 * and the load / modify / save cycle on the project file.
 */
module Descriptors {
  import opened Wrappers
  import opened Text
  import opened Engine

  /** A module record of a project descriptor. */
  datatype ModuleDescriptor = ModuleDescriptor(name: string, hostType: HostType)

  /** A parsed project file: its module list and the engine it is associated with. */
  datatype ProjectDescriptor = ProjectDescriptor(modules: seq<ModuleDescriptor>, engineAssociation: string)

  /** Parsed project files by path: a path absent from the map cannot be loaded. */
  type ProjectStore = map<string, ProjectDescriptor>

  /**
   * Module names are engine names, which compare without regard to ASCII
   * letter case.
   */
  predicate SameName(a: string, b: string)
  {
    ToUpper(a) == ToUpper(b)
  }

  /** Some record of `modules` carries the name `name`. */
  predicate HasModule(modules: seq<ModuleDescriptor>, name: string)
  {
    exists i :: 0 <= i < |modules| && SameName(modules[i].name, name)
  }

  /** No two records of `modules` carry the same name. */
  predicate NamesUnique(modules: seq<ModuleDescriptor>)
  {
    forall i, j :: 0 <= i < j < |modules| ==> !SameName(modules[i].name, modules[j].name)
  }

  /** One step of the merge: `m` is appended unless its name is already listed. */
  function AddIfAbsent(modules: seq<ModuleDescriptor>, m: ModuleDescriptor): seq<ModuleDescriptor>
  {
    if HasModule(modules, m.name) then modules else modules + [m]
  }

  /**
   * The module list after appending, in order, each record of `added`
   * whose name is not yet in the list, counting the records appended
   * before it.
   */
  function MergeModules(existing: seq<ModuleDescriptor>, added: seq<ModuleDescriptor>): (r: seq<ModuleDescriptor>)
    ensures |existing| <= |r| <= |existing| + |added|
    ensures r[..|existing|] == existing
    ensures forall k :: |existing| <= k < |r| ==> r[k] in added
    decreases |added|
  {
    if added == [] then existing
    else AddIfAbsent(MergeModules(existing, added[..|added| - 1]), added[|added| - 1])
  }

  /**
   * Appends to the descriptor's module list each module of `modules` whose
   * name is not listed yet, scanning the list as it grows. A missing list
   * changes nothing and reports false; otherwise the result is true, even
   * when nothing was appended.
   */
  method AppendProjectModules(d: ProjectDescriptor, modules: Option<seq<ModuleDescriptor>>)
    returns (changed: bool, d': ProjectDescriptor)
    ensures modules.None? ==> !changed && d' == d
    ensures modules.Some? ==> changed && d' == d.(modules := MergeModules(d.modules, modules.value))
  {
    if modules.None? {
      return false, d;
    }
    var added := modules.value;
    d' := d;
    var idx := 0;
    while idx < |added|
      invariant 0 <= idx <= |added|
      invariant d' == d.(modules := MergeModules(d.modules, added[..idx]))
    {
      var element := added[idx];
      var contains := ListsModule(d'.modules, element.name);
      if !contains {
        d' := d'.(modules := d'.modules + [element]);
      }
      assert added[..idx + 1][..idx] == added[..idx];
      idx := idx + 1;
    }
    assert added[..|added|] == added;
    return true, d';
  }

  /** The scan for a record with the given name, stopping at the first one found. */
  method ListsModule(modules: seq<ModuleDescriptor>, name: string) returns (contains: bool)
    ensures contains <==> HasModule(modules, name)
  {
    contains := false;
    var i := 0;
    while i < |modules|
      invariant 0 <= i <= |modules|
      invariant !HasModule(modules[..i], name)
    {
      if SameName(modules[i].name, name) {
        return true;
      }
      assert modules[..i + 1] == modules[..i] + [modules[i]];
      i := i + 1;
    }
    assert modules[..i] == modules;
  }

  // ----- Properties of the merge -----

  lemma SameNameIsEquivalence(a: string, b: string, c: string)
    ensures SameName(a, a)
    ensures SameName(a, b) ==> SameName(b, a)
    ensures SameName(a, b) && SameName(b, c) ==> SameName(a, c)
  {
  }

  /** A name is listed after the merge exactly when it was listed before or is among the added modules. */
  lemma {:induction false} MergeHasExactlyNames(existing: seq<ModuleDescriptor>, added: seq<ModuleDescriptor>, name: string)
    ensures HasModule(MergeModules(existing, added), name) <==> HasModule(existing, name) || HasModule(added, name)
    decreases |added|
  {
    if added != [] {
      var front := added[..|added| - 1];
      var last := added[|added| - 1];
      var prev := MergeModules(existing, front);
      MergeHasExactlyNames(existing, front, name);
      assert added == front + [last];
      HasModuleAppend(front, last, name);
      if HasModule(prev, last.name) {
        var i :| 0 <= i < |prev| && SameName(prev[i].name, last.name);
        if SameName(last.name, name) {
          SameNameIsEquivalence(prev[i].name, last.name, name);
        }
      } else {
        HasModuleAppend(prev, last, name);
      }
    }
  }

  /** Listing after appending one record. */
  lemma HasModuleAppend(modules: seq<ModuleDescriptor>, m: ModuleDescriptor, name: string)
    ensures HasModule(modules + [m], name) <==> HasModule(modules, name) || SameName(m.name, name)
  {
    var s := modules + [m];
    if HasModule(modules, name) {
      var i :| 0 <= i < |modules| && SameName(modules[i].name, name);
      assert s[i] == modules[i];
    }
    if SameName(m.name, name) {
      assert s[|modules|] == m;
    }
    if HasModule(s, name) {
      var i :| 0 <= i < |s| && SameName(s[i].name, name);
      if i < |modules| {
        assert s[i] == modules[i];
      }
    }
  }

  /** Merging keeps the names of a list with unique names unique, even when `added` repeats a name. */
  lemma {:induction false} MergeKeepsNamesUnique(existing: seq<ModuleDescriptor>, added: seq<ModuleDescriptor>)
    requires NamesUnique(existing)
    ensures NamesUnique(MergeModules(existing, added))
    decreases |added|
  {
    if added != [] {
      var front := added[..|added| - 1];
      var last := added[|added| - 1];
      var prev := MergeModules(existing, front);
      MergeKeepsNamesUnique(existing, front);
      if !HasModule(prev, last.name) {
        var s := prev + [last];
        forall i, j | 0 <= i < j < |s| ensures !SameName(s[i].name, s[j].name) {
          if j == |prev| {
            assert s[i] == prev[i];
            SameNameIsEquivalence(prev[i].name, last.name, last.name);
          } else {
            assert s[i] == prev[i] && s[j] == prev[j];
          }
        }
      }
    }
  }

  /** Merging the same modules a second time changes nothing. */
  lemma {:induction false} MergeIdempotent(existing: seq<ModuleDescriptor>, added: seq<ModuleDescriptor>)
    ensures MergeModules(MergeModules(existing, added), added) == MergeModules(existing, added)
  {
    var once := MergeModules(existing, added);
    forall k | 0 <= k < |added| ensures HasModule(once, added[k].name) {
      SameNameIsEquivalence(added[k].name, added[k].name, added[k].name);
      assert HasModule(added, added[k].name);
      MergeHasExactlyNames(existing, added, added[k].name);
    }
    MergeNothingNew(once, added);
  }

  /** Merging modules whose names are all listed already changes nothing. */
  lemma {:induction false} MergeNothingNew(existing: seq<ModuleDescriptor>, added: seq<ModuleDescriptor>)
    requires forall k :: 0 <= k < |added| ==> HasModule(existing, added[k].name) || HasModule(added[..k], added[k].name)
    ensures MergeModules(existing, added) == existing
    decreases |added|
  {
    if added != [] {
      var front := added[..|added| - 1];
      var last := added[|added| - 1];
      forall k | 0 <= k < |front| ensures HasModule(existing, front[k].name) || HasModule(front[..k], front[k].name) {
        assert front[k] == added[k] && front[..k] == added[..k];
      }
      MergeNothingNew(existing, front);
      assert added[..|added| - 1] == front;
      MergeHasExactlyNames(existing, front, last.name);
      assert HasModule(existing, last.name);
    }
  }

  /**
   * The records the merge appends, stated as a filter of `added`: a record
   * is kept when no existing record and no earlier added record has its
   * name, so the first record of each new name is kept, in the order of
   * `added`.
   */
  function FreshRecords(existing: seq<ModuleDescriptor>, added: seq<ModuleDescriptor>): seq<ModuleDescriptor>
    decreases |added|
  {
    if added == [] then []
    else
      var front, last := added[..|added| - 1], added[|added| - 1];
      FreshRecords(existing, front)
        + (if HasModule(existing, last.name) || HasModule(front, last.name) then [] else [last])
  }

  /** The merge appends exactly the first record of each unlisted name, in the order given. */
  lemma {:induction false} MergeAppendsFreshRecords(existing: seq<ModuleDescriptor>, added: seq<ModuleDescriptor>)
    ensures MergeModules(existing, added) == existing + FreshRecords(existing, added)
    decreases |added|
  {
    if added != [] {
      var front, last := added[..|added| - 1], added[|added| - 1];
      MergeAppendsFreshRecords(existing, front);
      MergeHasExactlyNames(existing, front, last.name);
    }
  }

  /** A module whose name is not listed yet is appended at the end, and nothing else changes. */
  lemma MergeFreshModule(existing: seq<ModuleDescriptor>, m: ModuleDescriptor)
    requires !HasModule(existing, m.name)
    ensures MergeModules(existing, [m]) == existing + [m]
  {
    assert [m][..0] == [];
  }

  /** A module whose name is listed already, in any letter case, is not appended again. */
  lemma MergeListedModule(existing: seq<ModuleDescriptor>, m: ModuleDescriptor)
    requires HasModule(existing, m.name)
    ensures MergeModules(existing, [m]) == existing
  {
    assert [m][..0] == [];
  }

  /** Two spellings of one name differing only in case are one module. */
  lemma CaseVariantNotAppended()
    ensures MergeModules([ModuleDescriptor("Gameplay", 0)], [ModuleDescriptor("GAMEPLAY", 1)]) == [ModuleDescriptor("Gameplay", 0)]
  {
    var existing := [ModuleDescriptor("Gameplay", 0)];
    assert ToUpper("Gameplay") == "GAMEPLAY";
    assert ToUpper("GAMEPLAY") == "GAMEPLAY";
    assert SameName(existing[0].name, "GAMEPLAY");
    MergeListedModule(existing, ModuleDescriptor("GAMEPLAY", 1));
  }

  // ----- The project file -----

  /**
   * What a modifier does to a loaded descriptor: it reports whether the
   * descriptor should be saved, and the descriptor it produced.
   */
  type Modifier = ProjectDescriptor -> (bool, ProjectDescriptor)

  /**
   * Loads the project file at `path`, lets the modifier (when there is one)
   * change it, and saves it and then records the engine association,
   * unless the modifier reports false, in which case nothing is saved and
   * the call still succeeds. Fails when the file cannot be loaded or when
   * the save or the association fails; `saveOk` and `associateOk` are
   * those two outcomes. A failed association leaves the saved file in
   * place.
   */
  function UpdateGameProjectFile(projects: ProjectStore, path: string, engineIdentifier: string,
                                 modifier: Option<Modifier>, saveOk: bool, associateOk: bool): (r: (bool, ProjectStore))
    ensures path !in projects ==> !r.0 && r.1 == projects
    ensures path in projects && modifier.Some? && !modifier.value(projects[path]).0 ==> r.0 && r.1 == projects
    ensures path in projects && (modifier.None? || modifier.value(projects[path]).0) ==>
              var d := if modifier.None? then projects[path] else modifier.value(projects[path]).1;
              && r.0 == (saveOk && associateOk)
              && (!saveOk ==> r.1 == projects)
              && (saveOk && !associateOk ==> r.1 == projects[path := d])
              && (saveOk && associateOk ==> r.1 == projects[path := d.(engineAssociation := engineIdentifier)])
    ensures forall p :: p != path ==> (p in r.1 <==> p in projects) && (p in projects ==> r.1[p] == projects[p])
  {
    if path !in projects then (false, projects)
    else
      var loaded := projects[path];
      if modifier.Some? && !modifier.value(loaded).0 then (true, projects)
      else
        var d := if modifier.None? then loaded else modifier.value(loaded).1;
        if !saveOk then (false, projects)
        else if !associateOk then (false, projects[path := d])
        else (true, projects[path := d.(engineAssociation := engineIdentifier)])
  }

  /**
   * Updates the current project's file with the running engine's
   * identifier; it reports success when the file loads and either the
   * modifier declines the save or both the save and the association
   * succeed.
   */
  function UpdateGameProject(ctx: EngineContext, projects: ProjectStore, modifier: Option<Modifier>,
                             saveOk: bool, associateOk: bool): (r: (bool, ProjectStore))
    ensures r.0 <==> ctx.projectFilePath in projects
                     && ((modifier.Some? && !modifier.value(projects[ctx.projectFilePath]).0) || (saveOk && associateOk))
  {
    UpdateGameProjectFile(projects, ctx.projectFilePath, ctx.engineIdentifier, modifier, saveOk, associateOk)
  }

  /**
   * The modifier the scaffolder passes: it appends the generated module
   * records and, since a module list is always given, always asks for a
   * save.
   */
  function ProjectModifier(generated: seq<ModuleDescriptor>): (f: Modifier)
    ensures forall d :: f(d).0
    ensures forall d :: f(d).1.engineAssociation == d.engineAssociation
    ensures forall d: ProjectDescriptor :: |d.modules| <= |f(d).1.modules| && f(d).1.modules[..|d.modules|] == d.modules
    ensures forall d: ProjectDescriptor, k :: |d.modules| <= k < |f(d).1.modules| ==> f(d).1.modules[k] in generated
  {
    (d: ProjectDescriptor) => (true, d.(modules := MergeModules(d.modules, generated)))
  }

  /** After the modifier a name is listed exactly when it was listed before or is among the generated records. */
  lemma ProjectModifierListsExactly(generated: seq<ModuleDescriptor>, d: ProjectDescriptor, name: string)
    ensures HasModule(ProjectModifier(generated)(d).1.modules, name) <==> HasModule(d.modules, name) || HasModule(generated, name)
  {
    MergeHasExactlyNames(d.modules, generated, name);
  }

  /**
   * With that modifier the project file is saved whenever it loads and the
   * save succeeds: the branch that skips the save is never taken.
   */
  lemma ScaffoldModifierAlwaysSaves(projects: ProjectStore, path: string, engineIdentifier: string,
                                    generated: seq<ModuleDescriptor>, saveOk: bool, associateOk: bool)
    requires path in projects && saveOk
    ensures var r := UpdateGameProjectFile(projects, path, engineIdentifier, Some(ProjectModifier(generated)), saveOk, associateOk);
            && r.0 == associateOk
            && path in r.1
            && r.1[path].modules == MergeModules(projects[path].modules, generated)
  {
    var f := ProjectModifier(generated);
    var d := f(projects[path]).1;
    assert f(projects[path]).0;
    var r := UpdateGameProjectFile(projects, path, engineIdentifier, Some(f), saveOk, associateOk);
    assert r.1[path] == d || r.1[path] == d.(engineAssociation := engineIdentifier);
  }
}
