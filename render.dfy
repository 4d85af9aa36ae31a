/**
 * Template rendering for the three files of a new module: the build rules
 * file, the public header and the module's source file. Each template is
 * read from the plugin's content folder and its `%TOKEN%` placeholders are
 * replaced one token after another, in a fixed order, by whole-text,
 * case-sensitive replacement.
 */
module Render {
  import opened Text
  import opened Engine

  const CopyrightToken := "%COPYRIGHT_LINE%"
  const PublicDepsToken := "%PUBLIC_DEPENDENCY_MODULE_NAMES%"
  const PrivateDepsToken := "%PRIVATE_DEPENDENCY_MODULE_NAMES%"
  const ModuleNameToken := "%MODULE_NAME%"
  const PchUsageToken := "%PCH_USAGE%"
  const ApiMacroToken := "%CLASS_MODULE_API_MACRO%"
  const HeaderIncludesToken := "%PUBLIC_HEADER_INCLUDES%"
  const StartupToken := "%MODULE_STARTUP_CODE%"
  const ShutdownToken := "%MODULE_SHUTDOWN_CODE%"

  const BuildTemplateName := "Module.Build.cs.template"
  const HeaderTemplateName := "Module.h.template"
  const CppTemplateName := "Module.cpp.template"

  /** One replacement step: every occurrence of `token` becomes `value`. */
  datatype Substitution = Substitution(token: string, value: string)

  /** The replacement steps applied in order, each to the previous output. */
  function ApplyAll(s: string, subs: seq<Substitution>): string
    decreases |subs|
  {
    if subs == [] then s else ApplyAll(Replace(s, subs[0].token, subs[0].value), subs[1..])
  }

  /** The comment line put at the top of generated files. */
  function GetCopyrightLine(notice: string): (line: string)
    ensures line == [] <==> notice == []
    ensures notice != [] ==> |line| == |notice| + 3
    ensures notice != [] ==> line[..3] == "// " && line[3..] == notice
  {
    if notice != [] then "// " + notice else ""
  }

  /** The export macro of a module: its upper-cased name and `_API `, or nothing when private. */
  function GetModuleAPIMacro(moduleName: string, isPrivate: bool): (macro: string)
    ensures isPrivate ==> macro == []
    ensures !isPrivate ==> |macro| == |moduleName| + 5 && macro[|moduleName|..] == "_API "
    ensures !isPrivate ==> forall i :: 0 <= i < |moduleName| ==> macro[i] == UpperChar(moduleName[i])
  {
    if isPrivate then "" else ToUpper(moduleName) + "_API "
  }

  /** The precompiled-header policy written into the build rules. */
  function PchUsage(useExplicitOrSharedPCHs: bool): string
  {
    if useExplicitOrSharedPCHs then "UseExplicitOrSharedPCHs" else "UseSharedPCHs"
  }

  function BuildFileSubstitutions(copyrightLine: string, moduleName: string, publicList: string,
                                  privateList: string, useExplicitOrSharedPCHs: bool): seq<Substitution>
  {
    [ Substitution(CopyrightToken, copyrightLine),
      Substitution(PublicDepsToken, publicList),
      Substitution(PrivateDepsToken, privateList),
      Substitution(ModuleNameToken, moduleName),
      Substitution(PchUsageToken, PchUsage(useExplicitOrSharedPCHs)) ]
  }

  function HeaderFileSubstitutions(copyrightLine: string, moduleName: string, includeList: string): seq<Substitution>
  {
    [ Substitution(CopyrightToken, copyrightLine),
      Substitution(ModuleNameToken, moduleName),
      Substitution(ApiMacroToken, GetModuleAPIMacro(moduleName, false)),
      Substitution(HeaderIncludesToken, includeList) ]
  }

  /** As in the source, the shutdown placeholder receives the startup code; `shutdownCode` is unused. */
  function CppFileSubstitutions(copyrightLine: string, moduleName: string, startupCode: string,
                                shutdownCode: string): seq<Substitution>
  {
    [ Substitution(CopyrightToken, copyrightLine),
      Substitution(ModuleNameToken, moduleName),
      Substitution(StartupToken, startupCode),
      Substitution(ShutdownToken, startupCode) ]
  }

  /** Where a template is read from: the plugin content folder's Editor/Templates. */
  function TemplatePath(ctx: EngineContext, templateName: string): string
  {
    PathJoin(PathJoin(PathJoin(ctx.pluginContentDir, "Editor"), "Templates"), templateName)
  }

  /** A generation step either writes its file or fails with a reason and writes nothing. */
  datatype GenOutcome = Generated(files: FileStore) | NotGenerated(reason: FailReason)

  /**
   * Reads `templateName`, renders it with `subs` and writes it to `path`;
   * `writeOk` is the outcome of the engine's file write.
   */
  function GenerateFromTemplate(ctx: EngineContext, fs: FileStore, templateName: string, path: string,
                                subs: seq<Substitution>, writeOk: bool): (r: GenOutcome)
    ensures r.Generated? <==> TemplatePath(ctx, templateName) in fs && writeOk
    ensures TemplatePath(ctx, templateName) !in fs ==> r == NotGenerated(TemplateUnreadable(TemplatePath(ctx, templateName)))
    ensures TemplatePath(ctx, templateName) in fs && !writeOk ==> r == NotGenerated(WriteFailed(path))
    ensures r.Generated? ==> r.files == fs[path := ApplyAll(fs[TemplatePath(ctx, templateName)], subs)]
  {
    var templatePath := TemplatePath(ctx, templateName);
    if templatePath !in fs then NotGenerated(TemplateUnreadable(templatePath))
    else if !writeOk then NotGenerated(WriteFailed(path))
    else Generated(fs[path := ApplyAll(fs[templatePath], subs)])
  }

  function GenerateModuleBuildFile(ctx: EngineContext, fs: FileStore, path: string, moduleName: string,
                                   publicDeps: seq<string>, privateDeps: seq<string>,
                                   useExplicitOrSharedPCHs: bool, writeOk: bool): GenOutcome
  {
    GenerateFromTemplate(ctx, fs, BuildTemplateName, path,
      BuildFileSubstitutions(GetCopyrightLine(ctx.copyrightNotice), moduleName, ctx.commaDelimitedList(publicDeps),
                             ctx.commaDelimitedList(privateDeps), useExplicitOrSharedPCHs), writeOk)
  }

  function GenerateModuleHeaderFile(ctx: EngineContext, fs: FileStore, path: string, moduleName: string,
                                    publicHeaderIncludes: seq<string>, writeOk: bool): GenOutcome
  {
    GenerateFromTemplate(ctx, fs, HeaderTemplateName, path,
      HeaderFileSubstitutions(GetCopyrightLine(ctx.copyrightNotice), moduleName, ctx.includeList(publicHeaderIncludes)), writeOk)
  }

  function GenerateModuleCPPFile(ctx: EngineContext, fs: FileStore, path: string, moduleName: string,
                                 startupCode: string, shutdownCode: string, writeOk: bool): GenOutcome
  {
    GenerateFromTemplate(ctx, fs, CppTemplateName, path,
      CppFileSubstitutions(GetCopyrightLine(ctx.copyrightNotice), moduleName, startupCode, shutdownCode), writeOk)
  }

  // ----- Placeholder facts -----

  /** A placeholder: `%`, a name without `%`, `%`. */
  predicate IsToken(t: string)
  {
    |t| >= 2 && t[0] == '%' && t[|t| - 1] == '%' && '%' !in t[1..|t| - 1]
  }

  /** Every placeholder the renderers use is well formed. */
  lemma PlaceholdersAreTokens()
    ensures IsToken(CopyrightToken) && IsToken(PublicDepsToken) && IsToken(PrivateDepsToken)
    ensures IsToken(ModuleNameToken) && IsToken(PchUsageToken) && IsToken(ApiMacroToken)
    ensures IsToken(HeaderIncludesToken) && IsToken(StartupToken) && IsToken(ShutdownToken)
  {
  }

  predicate AllTokens(subs: seq<Substitution>)
  {
    forall j :: 0 <= j < |subs| ==> IsToken(subs[j].token)
  }

  /** Text lacking a character of `pat` holds no occurrence of it. */
  lemma NoCharNoOccurrence(s: string, pat: string, c: char)
    requires c in pat && c !in s
    ensures forall i: nat :: !OccursAt(s, pat, i)
  {
    var j :| 0 <= j < |pat| && pat[j] == c;
    forall i: nat ensures !OccursAt(s, pat, i) {
      if i + |pat| <= |s| {
        assert s[i..i + |pat|][j] == s[i + j] != c;
      }
    }
  }

  /** One placeholder never occurs inside a different one. */
  lemma TokenDistinct(t: string, f: string)
    requires IsToken(t) && IsToken(f) && t != f
    ensures forall i: nat :: !OccursAt(t, f, i)
  {
    forall i: nat ensures !OccursAt(t, f, i) {
      if i + |f| <= |t| {
        if i == 0 {
          if |f| < |t| {
            assert t[1..|t| - 1][|f| - 2] == t[|f| - 1];
            assert t[i..i + |f|][|f| - 1] == t[|f| - 1] != '%';
          }
        } else {
          assert t[1..|t| - 1][i - 1] == t[i];
          assert t[i..i + |f|][0] == t[i] != '%';
        }
      }
    }
  }

  /** Text without `%` passes through every replacement step unchanged. */
  lemma {:induction false} ApplyAllUnchanged(s: string, subs: seq<Substitution>)
    requires '%' !in s && AllTokens(subs)
    ensures ApplyAll(s, subs) == s
    decreases |subs|
  {
    if subs != [] {
      NoCharNoOccurrence(s, subs[0].token, '%');
      ReplaceAbsent(s, subs[0].token, subs[0].value);
      ApplyAllUnchanged(s, subs[1..]);
    }
  }

  /**
   * A template holding just the k-th placeholder renders to the k-th value,
   * provided no earlier step has the same placeholder and the value
   * itself holds no `%` for later steps to rewrite.
   */
  lemma {:induction false} ApplyAllSlot(subs: seq<Substitution>, k: nat)
    requires AllTokens(subs) && k < |subs|
    requires forall j :: 0 <= j < k ==> subs[j].token != subs[k].token
    requires k + 1 < |subs| ==> '%' !in subs[k].value
    ensures ApplyAll(subs[k].token, subs) == subs[k].value
    decreases k
  {
    if k == 0 {
      FirstSlot(subs);
    } else {
      SkipOtherToken(subs, k);
      assert subs[1..][k - 1] == subs[k];
      ApplyAllSlot(subs[1..], k - 1);
    }
  }

  /** The first step turns its own placeholder into its value, which later steps leave alone. */
  lemma FirstSlot(subs: seq<Substitution>)
    requires AllTokens(subs) && |subs| > 0
    requires 1 < |subs| ==> '%' !in subs[0].value
    ensures ApplyAll(subs[0].token, subs) == subs[0].value
  {
    var t, v := subs[0].token, subs[0].value;
    ReplaceAtStart([], t, v);
    assert t + [] == t && v + [] == v;
    assert Replace([], t, v) == [];
    assert ApplyAll(t, subs) == ApplyAll(v, subs[1..]);
    if 1 < |subs| {
      ApplyAllUnchanged(v, subs[1..]);
    }
  }

  /** A step for a different placeholder leaves the k-th placeholder alone. */
  lemma SkipOtherToken(subs: seq<Substitution>, k: nat)
    requires AllTokens(subs) && 0 < k < |subs|
    requires subs[0].token != subs[k].token
    ensures ApplyAll(subs[k].token, subs) == ApplyAll(subs[k].token, subs[1..])
  {
    TokenDistinct(subs[k].token, subs[0].token);
    ReplaceAbsent(subs[k].token, subs[0].token, subs[0].value);
  }

  /**
   * A placeholder standing between two pieces of text without `%` renders to
   * its value between the same pieces, under the same conditions.
   */
  lemma {:induction false} ApplyAllSlotInText(a: string, b: string, subs: seq<Substitution>, k: nat)
    requires '%' !in a && '%' !in b
    requires AllTokens(subs) && k < |subs|
    requires forall j :: 0 <= j < k ==> subs[j].token != subs[k].token
    requires k + 1 < |subs| ==> '%' !in subs[k].value
    ensures ApplyAll(a + subs[k].token + b, subs) == a + subs[k].value + b
    decreases k
  {
    if k == 0 {
      FirstSlotInText(a, b, subs);
    } else {
      var t := subs[k].token;
      TokenOnlyInPlace(a, t, b, subs[0].token);
      ReplaceAbsent(a + t + b, subs[0].token, subs[0].value);
      assert subs[1..][k - 1] == subs[k];
      ApplyAllSlotInText(a, b, subs[1..], k - 1);
    }
  }

  /** The first step turns its placeholder between two pieces without `%` into its value there. */
  lemma FirstSlotInText(a: string, b: string, subs: seq<Substitution>)
    requires '%' !in a && '%' !in b
    requires AllTokens(subs) && |subs| > 0
    requires 1 < |subs| ==> '%' !in subs[0].value
    ensures ApplyAll(a + subs[0].token + b, subs) == a + subs[0].value + b
  {
    var t, v := subs[0].token, subs[0].value;
    forall i: nat | i < |a| ensures !OccursAt(a + t + b, t, i) {
      assert i + |t| <= |a + t + b| ==> (a + t + b)[i..i + |t|][0] == a[i] != '%';
    }
    ReplaceLeftmost(a, b, t, v);
    NoCharNoOccurrence(b, t, '%');
    ReplaceAbsent(b, t, v);
    assert ApplyAll(a + t + b, subs) == ApplyAll(a + v + b, subs[1..]);
    if 1 < |subs| {
      assert '%' !in a + v + b;
      ApplyAllUnchanged(a + v + b, subs[1..]);
    }
  }

  /** The pieces `ps` with `sep` between each two of them. */
  function Join(ps: seq<string>, sep: string): string
    decreases |ps|
  {
    if |ps| <= 1 then (if ps == [] then [] else ps[0])
    else ps[0] + sep + Join(ps[1..], sep)
  }

  /** Pieces without a character, joined by a separator without it, lack it too. */
  lemma {:induction false} JoinAvoids(ps: seq<string>, sep: string, c: char)
    requires forall i :: 0 <= i < |ps| ==> c !in ps[i]
    requires c !in sep
    ensures c !in Join(ps, sep)
    decreases |ps|
  {
    if |ps| > 1 {
      JoinAvoids(ps[1..], sep, c);
    }
  }

  /**
   * Replacing a placeholder that separates pieces without `%` replaces each
   * of its occurrences, even where a piece between two of them spells the
   * placeholder's inside.
   */
  lemma {:induction false} ReplaceJoin(ps: seq<string>, t: string, v: string)
    requires forall i :: 0 <= i < |ps| ==> '%' !in ps[i]
    requires IsToken(t)
    ensures Replace(Join(ps, t), t, v) == Join(ps, v)
    decreases |ps|
  {
    if |ps| <= 1 {
      NoCharNoOccurrence(Join(ps, t), t, '%');
      ReplaceAbsent(Join(ps, t), t, v);
    } else {
      var a, b := ps[0], Join(ps[1..], t);
      forall i: nat | i < |a| ensures !OccursAt(a + t + b, t, i) {
        assert i + |t| <= |a + t + b| ==> (a + t + b)[i..i + |t|][0] == a[i] != '%';
      }
      ReplaceLeftmost(a, b, t, v);
      ReplaceJoin(ps[1..], t, v);
    }
  }

  /**
   * A placeholder used any number of times between pieces of template text
   * without `%` renders to its value at every use, when no earlier step's
   * placeholder occurs in the template and, unless it is the last step,
   * its value has no `%`.
   */
  lemma {:induction false} ApplyAllJoin(ps: seq<string>, subs: seq<Substitution>, k: nat)
    requires forall i :: 0 <= i < |ps| ==> '%' !in ps[i]
    requires AllTokens(subs) && k < |subs|
    requires forall j :: 0 <= j < k ==> forall i: nat :: !OccursAt(Join(ps, subs[k].token), subs[j].token, i)
    requires k + 1 < |subs| ==> '%' !in subs[k].value
    ensures ApplyAll(Join(ps, subs[k].token), subs) == Join(ps, subs[k].value)
    decreases k
  {
    var t := subs[k].token;
    if k == 0 {
      ReplaceJoin(ps, t, subs[0].value);
      if 1 < |subs| {
        JoinAvoids(ps, subs[0].value, '%');
        ApplyAllUnchanged(Join(ps, subs[0].value), subs[1..]);
      }
    } else {
      ReplaceAbsent(Join(ps, t), subs[0].token, subs[0].value);
      assert subs[1..][k - 1] == subs[k];
      forall j | 0 <= j < k - 1 ensures forall i: nat :: !OccursAt(Join(ps, t), subs[1..][j].token, i) {
        assert subs[1..][j] == subs[j + 1];
      }
      ApplyAllJoin(ps, subs[1..], k - 1);
    }
  }

  /** In a placeholder between pieces without `%`, no other placeholder occurs. */
  lemma TokenOnlyInPlace(a: string, t: string, b: string, f: string)
    requires '%' !in a && '%' !in b
    requires IsToken(t) && IsToken(f) && t != f
    ensures forall i: nat :: !OccursAt(a + t + b, f, i)
  {
    var s := a + t + b;
    forall i: nat ensures !OccursAt(s, f, i) {
      if OccursAt(s, f, i) {
        var e := i + |f| - 1;
        assert s[i] == s[i..i + |f|][0] == '%';
        assert s[e] == s[i..i + |f|][|f| - 1] == '%';
        PercentPositions(a, t, b, i);
        PercentPositions(a, t, b, e);
      }
    }
  }

  /** The only `%` of a placeholder between pieces without `%` are its delimiters. */
  lemma PercentPositions(a: string, t: string, b: string, p: nat)
    requires '%' !in a && '%' !in b && IsToken(t)
    requires p < |a + t + b| && (a + t + b)[p] == '%'
    ensures p == |a| || p == |a| + |t| - 1
  {
    var s := a + t + b;
    forall q | 0 <= q < |a| ensures s[q] != '%' {
      assert s[q] == a[q];
    }
    forall q | |a| + |t| <= q < |s| ensures s[q] != '%' {
      assert s[q] == b[q - |a| - |t|];
    }
    forall q | |a| < q < |a| + |t| - 1 ensures s[q] != '%' {
      assert s[q] == t[1..|t| - 1][q - |a| - 1];
    }
  }

  /** Upper-casing keeps `%` out of a name that had none. */
  lemma MacroHasNoPercent(moduleName: string)
    requires '%' !in moduleName
    ensures '%' !in GetModuleAPIMacro(moduleName, false)
  {
    var m := GetModuleAPIMacro(moduleName, false);
    forall i | 0 <= i < |m| ensures m[i] != '%' {
      if i < |moduleName| {
        assert m[i] == UpperChar(moduleName[i]);
        assert moduleName[i] != '%';
      } else {
        assert m[i] == "_API "[i - |moduleName|];
      }
    }
  }

  /** `%PCH_USAGE%` becomes the PCH policy chosen by the flag. */
  lemma PchUsageRendered(copyrightLine: string, moduleName: string, publicList: string, privateList: string, flag: bool)
    ensures ApplyAll(PchUsageToken, BuildFileSubstitutions(copyrightLine, moduleName, publicList, privateList, flag))
            == (if flag then "UseExplicitOrSharedPCHs" else "UseSharedPCHs")
  {
    var subs := BuildFileSubstitutions(copyrightLine, moduleName, publicList, privateList, flag);
    PlaceholdersAreTokens();
    assert AllTokens(subs);
    ApplyAllSlot(subs, 4);
  }

  /** `%MODULE_NAME%` in a build rules template becomes the module name. */
  lemma BuildModuleNameRendered(copyrightLine: string, moduleName: string, publicList: string, privateList: string, flag: bool)
    requires '%' !in moduleName
    ensures ApplyAll(ModuleNameToken, BuildFileSubstitutions(copyrightLine, moduleName, publicList, privateList, flag)) == moduleName
  {
    var subs := BuildFileSubstitutions(copyrightLine, moduleName, publicList, privateList, flag);
    PlaceholdersAreTokens();
    assert AllTokens(subs);
    ApplyAllSlot(subs, 3);
  }

  /** `%CLASS_MODULE_API_MACRO%` becomes the upper-cased module name followed by `_API `. */
  lemma ApiMacroRendered(copyrightLine: string, moduleName: string, includeList: string)
    requires '%' !in moduleName
    ensures ApplyAll(ApiMacroToken, HeaderFileSubstitutions(copyrightLine, moduleName, includeList)) == ToUpper(moduleName) + "_API "
  {
    var subs := HeaderFileSubstitutions(copyrightLine, moduleName, includeList);
    PlaceholdersAreTokens();
    assert AllTokens(subs);
    MacroHasNoPercent(moduleName);
    ApplyAllSlot(subs, 2);
  }

  /** The source file's shutdown placeholder receives the startup code, whatever the shutdown code is. */
  lemma ShutdownGetsStartupCode(copyrightLine: string, moduleName: string, startupCode: string, shutdownCode: string)
    ensures ApplyAll(ShutdownToken, CppFileSubstitutions(copyrightLine, moduleName, startupCode, shutdownCode)) == startupCode
  {
    var subs := CppFileSubstitutions(copyrightLine, moduleName, startupCode, shutdownCode);
    PlaceholdersAreTokens();
    assert AllTokens(subs);
    ApplyAllSlot(subs, 3);
  }

  /** `%COPYRIGHT_LINE%` becomes `// ` and the project's notice, or nothing when the notice is empty. */
  lemma CopyrightRendered(notice: string, moduleName: string, publicList: string, privateList: string, flag: bool)
    requires '%' !in notice
    ensures ApplyAll(CopyrightToken, BuildFileSubstitutions(GetCopyrightLine(notice), moduleName, publicList, privateList, flag))
            == (if notice == [] then "" else "// " + notice)
  {
    var subs := BuildFileSubstitutions(GetCopyrightLine(notice), moduleName, publicList, privateList, flag);
    PlaceholdersAreTokens();
    assert AllTokens(subs);
    assert GetCopyrightLine(notice) == [] || GetCopyrightLine(notice) == "// " + notice;
    ApplyAllSlot(subs, 0);
  }

  /**
   * Replacement is sequential: placeholders inside an earlier value are
   * themselves replaced by later steps. A notice naming `%MODULE_NAME%`
   * ends up naming the module.
   */
  lemma NoticeIsRenderedToo(publicList: string, privateList: string, flag: bool)
    ensures ApplyAll(CopyrightToken, BuildFileSubstitutions(GetCopyrightLine(ModuleNameToken), "Foo", publicList, privateList, flag)) == "// Foo"
  {
    var line := GetCopyrightLine(ModuleNameToken);
    var subs := BuildFileSubstitutions(line, "Foo", publicList, privateList, flag);
    ReplaceLeftmost([], [], CopyrightToken, line);
    assert [] + CopyrightToken + [] == CopyrightToken;
    assert Replace([], CopyrightToken, line) == [];
    assert Replace(CopyrightToken, CopyrightToken, line) == line;
    NoticeSkipsListTokens(publicList, privateList);
    NoticeNamesModule();
    ReplaceAbsent("// Foo", PchUsageToken, PchUsage(flag));
    assert ApplyAll("// Foo", subs[4..]) == "// Foo";
    assert ApplyAll(line, subs[3..]) == "// Foo";
    assert ApplyAll(line, subs[2..]) == "// Foo";
    assert ApplyAll(line, subs[1..]) == "// Foo";
  }

  /** The dependency-list placeholders do not occur in a notice naming the module placeholder. */
  lemma NoticeSkipsListTokens(publicList: string, privateList: string)
    ensures Replace(GetCopyrightLine(ModuleNameToken), PublicDepsToken, publicList) == GetCopyrightLine(ModuleNameToken)
    ensures Replace(GetCopyrightLine(ModuleNameToken), PrivateDepsToken, privateList) == GetCopyrightLine(ModuleNameToken)
  {
    ReplaceAbsent(GetCopyrightLine(ModuleNameToken), PublicDepsToken, publicList);
    ReplaceAbsent(GetCopyrightLine(ModuleNameToken), PrivateDepsToken, privateList);
  }

  /** The module placeholder inside the notice becomes the module name. */
  lemma NoticeNamesModule()
    ensures Replace(GetCopyrightLine(ModuleNameToken), ModuleNameToken, "Foo") == "// Foo"
  {
    var line := GetCopyrightLine(ModuleNameToken);
    assert line == "// " + ModuleNameToken + [];
    forall i: nat | i < 3 ensures !OccursAt(line, ModuleNameToken, i) {
      assert i + 13 <= |line| ==> line[i..i + 13][0] == line[i] != '%';
    }
    ReplaceLeftmost("// ", [], ModuleNameToken, "Foo");
    assert Replace([], ModuleNameToken, "Foo") == [];
    assert "// " + "Foo" + [] == "// Foo";
  }

  /** A template without `%` is written out verbatim by each of the three renderers. */
  lemma PlainTemplateVerbatim(template: string, copyrightLine: string, moduleName: string, a: string, b: string, flag: bool)
    requires '%' !in template
    ensures ApplyAll(template, BuildFileSubstitutions(copyrightLine, moduleName, a, b, flag)) == template
    ensures ApplyAll(template, HeaderFileSubstitutions(copyrightLine, moduleName, a)) == template
    ensures ApplyAll(template, CppFileSubstitutions(copyrightLine, moduleName, a, b)) == template
  {
    RenderersUseTokens(copyrightLine, moduleName, a, b, flag);
    ApplyAllUnchanged(template, BuildFileSubstitutions(copyrightLine, moduleName, a, b, flag));
    ApplyAllUnchanged(template, HeaderFileSubstitutions(copyrightLine, moduleName, a));
    ApplyAllUnchanged(template, CppFileSubstitutions(copyrightLine, moduleName, a, b));
  }

  /** Every replacement step of the three renderers is for a well-formed placeholder. */
  lemma RenderersUseTokens(copyrightLine: string, moduleName: string, a: string, b: string, flag: bool)
    ensures AllTokens(BuildFileSubstitutions(copyrightLine, moduleName, a, b, flag))
    ensures AllTokens(HeaderFileSubstitutions(copyrightLine, moduleName, a))
    ensures AllTokens(CppFileSubstitutions(copyrightLine, moduleName, a, b))
  {
    PlaceholdersAreTokens();
  }
}
