/**
 * The dependency-list rewriter: finds the first
 * `List.AddRange( new string[] { ... } );` declaration in a build script,
 * cuts it out and puts back a canonical declaration whose list is the old
 * entries followed by the new module's name. The text matcher is a
 * parameter: any finder that reports the span and the captured entries of
 * a declaration of the requested list.
 */
module Splice {
  import opened Wrappers
  import opened Text
  import opened Engine

  const PublicDependencyList := "PublicDependencyModuleNames"
  const ExtraModuleList := "ExtraModuleNames"

  /** Whitespace as the pattern's `\s` class sees it. */
  predicate IsSpace(c: char)
  {
    c == ' ' || c == '\t' || c == '\n' || c == '\r' || c == '\U{B}' || c == '\U{C}'
  }

  predicate AllSpace(s: string)
  {
    forall i :: 0 <= i < |s| ==> IsSpace(s[i])
  }

  /** Free of the line terminators the pattern's `.` does not match. */
  predicate SingleLine(s: string)
  {
    '\n' !in s && '\r' !in s && '\U{85}' !in s && '\U{2028}' !in s && '\U{2029}' !in s
  }

  /** The whitespace runs the pattern allows between the fixed parts of a declaration. */
  datatype Gaps = Gaps(afterParen: string, beforeBrace: string, beforeEntries: string, afterEntries: string, beforeClose: string)

  /** A declaration found in a text: its span `[start, end)`, its whitespace and the captured entries. */
  datatype Match = Match(start: nat, end: nat, gaps: Gaps, capture: string)

  /** The text of a declaration of `list` with the given whitespace and entries. */
  function DeclarationText(list: string, g: Gaps, capture: string): string
  {
    list + ".AddRange(" + g.afterParen + "new string[]" + g.beforeBrace + "{" + g.beforeEntries
      + capture + g.afterEntries + "}" + g.beforeClose + ");"
  }

  /** `m` describes a declaration of `list` that really stands in `text` at the reported span. */
  predicate IsDeclarationAt(text: string, list: string, m: Match)
  {
    && m.start <= m.end <= |text|
    && text[m.start..m.end] == DeclarationText(list, m.gaps, m.capture)
    && AllSpace(m.gaps.afterParen) && AllSpace(m.gaps.beforeBrace) && AllSpace(m.gaps.beforeEntries)
    && AllSpace(m.gaps.afterEntries) && AllSpace(m.gaps.beforeClose)
    && SingleLine(m.capture)
  }

  /** The matcher: given a list name and a text, the first declaration of that list, if any. */
  type Finder = (string, string) -> Option<Match>

  /**
   * The finder reports a declaration exactly when the text holds one, and
   * what it reports is a declaration at the reported place that starts no
   * later than any other.
   */
  ghost predicate SoundFinder(find: Finder)
  {
    && (forall list, text :: find(list, text).Some? ==> IsDeclarationAt(text, list, find(list, text).value))
    && (forall list, text, m :: IsDeclarationAt(text, list, m) ==>
          find(list, text).Some? && find(list, text).value.start <= m.start)
  }

  /** Every text holding a declaration of a list holds one that starts no later than any other. */
  lemma {:induction false} LeftmostExists(text: string, list: string, m: Match)
    requires IsDeclarationAt(text, list, m)
    ensures exists first :: IsDeclarationAt(text, list, first) &&
              forall other :: IsDeclarationAt(text, list, other) ==> first.start <= other.start
    decreases m.start
  {
    if exists earlier :: IsDeclarationAt(text, list, earlier) && earlier.start < m.start {
      var earlier :| IsDeclarationAt(text, list, earlier) && earlier.start < m.start;
      LeftmostExists(text, list, earlier);
    } else {
      assert forall other :: IsDeclarationAt(text, list, other) ==> m.start <= other.start;
    }
  }

  /** A reference matcher: some leftmost declaration, if the text holds any. */
  ghost function Leftmost(list: string, text: string): (r: Option<Match>)
    ensures r.Some? ==> IsDeclarationAt(text, list, r.value)
    ensures forall m :: IsDeclarationAt(text, list, m) ==> r.Some? && r.value.start <= m.start
  {
    if exists m :: IsDeclarationAt(text, list, m) then
      var m :| IsDeclarationAt(text, list, m);
      LeftmostExists(text, list, m);
      var first :| IsDeclarationAt(text, list, first) &&
                   forall other :: IsDeclarationAt(text, list, other) ==> first.start <= other.start;
      Some(first)
    else
      None
  }

  /** The finder contract can be met: the reference matcher meets it. */
  lemma LeftmostIsSound()
    ensures SoundFinder((list, text) => Leftmost(list, text))
  {
  }

  /**
   * A sound finder succeeds exactly on texts holding a declaration, and all
   * sound finders agree on where the first one starts.
   */
  lemma FinderAgreesWithText(find: Finder, find': Finder, list: string, text: string)
    requires SoundFinder(find) && SoundFinder(find')
    ensures find(list, text).Some? <==> exists m :: IsDeclarationAt(text, list, m)
    ensures find(list, text).Some? ==> find'(list, text).Some? && find(list, text).value.start == find'(list, text).value.start
  {
    if find(list, text).Some? {
      assert IsDeclarationAt(text, list, find(list, text).value);
      assert IsDeclarationAt(text, list, find'(list, text).value);
    }
  }

  /** The entries of the rewritten declaration: the captured ones, then the quoted module name. */
  function NewEntries(capture: string, moduleName: string): string
  {
    capture + ", \"" + moduleName + "\""
  }

  /** The canonical declaration put in place of the one found. */
  function Canonical(list: string, capture: string, moduleName: string): string
  {
    list + ".AddRange( new string[] { " + NewEntries(capture, moduleName) + " } );"
  }

  /**
   * The text after the rewrite: everything before the span, the canonical
   * declaration, everything after the span.
   */
  function Spliced(text: string, m: Match, list: string, moduleName: string): (r: string)
    requires m.start <= m.end <= |text|
    ensures |r| == |text| - (m.end - m.start) + |Canonical(list, m.capture, moduleName)|
    ensures r[..m.start] == text[..m.start]
    ensures r[m.start..m.start + |Canonical(list, m.capture, moduleName)|] == Canonical(list, m.capture, moduleName)
    ensures r[m.start + |Canonical(list, m.capture, moduleName)|..] == text[m.end..]
  {
    text[..m.start] + Canonical(list, m.capture, moduleName) + text[m.end..]
  }

  /**
   * The insertion text is built by replacing `MODULES` in a fixed template;
   * it comes out as the canonical declaration.
   */
  lemma InsertionTextIsCanonical(list: string, capture: string, moduleName: string)
    requires list == PublicDependencyList || list == ExtraModuleList
    ensures Replace(list + ".AddRange( new string[] { MODULES } );", "MODULES", NewEntries(capture, moduleName))
            == Canonical(list, capture, moduleName)
  {
    var head := list + ".AddRange( new string[] { ";
    InsertionTemplateParts(list);
    ListNamesHaveNoCapitalO();
    FixedPartsHaveNoCapitalO();
    FillSlot(head, " } );", NewEntries(capture, moduleName));
  }

  /** The insertion template is the opening, the `MODULES` slot and the closing. */
  lemma InsertionTemplateParts(list: string)
    ensures list + ".AddRange( new string[] { MODULES } );" == (list + ".AddRange( new string[] { ") + "MODULES" + " } );"
  {
  }

  lemma FixedPartsHaveNoCapitalO()
    ensures 'O' !in ".AddRange( new string[] { " && 'O' !in " } );"
  {
  }

  lemma ListNamesHaveNoCapitalO()
    ensures 'O' !in PublicDependencyList && 'O' !in ExtraModuleList
  {
  }

  /** Replacing `MODULES` between two parts without a capital O fills exactly that slot. */
  lemma FillSlot(head: string, tail: string, entries: string)
    requires 'O' !in head && 'O' !in tail
    ensures Replace(head + "MODULES" + tail, "MODULES", entries) == head + entries + tail
  {
    NoCapitalO(head);
    NoCapitalO(tail);
    ReplaceLeftmost(head, tail, "MODULES", entries);
    ReplaceAbsent(tail, "MODULES", entries);
  }

  /** A text without a capital O holds no `MODULES`, not even overlapping a following part. */
  lemma NoCapitalO(s: string)
    requires 'O' !in s
    ensures forall i: nat :: !OccursAt(s, "MODULES", i)
    ensures forall i: nat, t: string :: i < |s| ==> !OccursAt(s + "MODULES" + t, "MODULES", i)
  {
    forall i: nat ensures !OccursAt(s, "MODULES", i) {
      if i + 7 <= |s| {
        assert s[i..i + 7][1] == s[i + 1] != 'O';
      }
    }
    forall i: nat, t: string | i < |s| ensures !OccursAt(s + "MODULES" + t, "MODULES", i) {
      var u := s + "MODULES" + t;
      if i + 7 <= |u| {
        if i + 1 < |s| {
          assert u[i..i + 7][1] == s[i + 1] != 'O';
        } else {
          assert u[i..i + 7][1] == u[|s|] == 'M';
        }
      }
    }
  }

  /**
   * Cuts the first declaration of `list` out of `contents` and inserts the
   * canonical one at the same offset; `found` is false, and the text
   * unchanged, when the finder reports no declaration.
   */
  method RewriteFirstDeclaration(find: Finder, list: string, contents: string, moduleName: string)
    returns (found: bool, result: string)
    requires SoundFinder(find)
    requires list == PublicDependencyList || list == ExtraModuleList
    ensures found <==> find(list, contents).Some?
    ensures !found ==> result == contents
    ensures found ==> result == Spliced(contents, find(list, contents).value, list, moduleName)
  {
    var m := find(list, contents);
    if m.None? {
      return false, contents;
    }
    var start, end := m.value.start, m.value.end;
    assert IsDeclarationAt(contents, list, m.value);
    // Remove the matched span.
    var text := contents[..start] + contents[end..];
    assert text[..start] == contents[..start] && text[start..] == contents[end..];
    // Build the replacement from its template and insert it where the span began.
    var insertion := Replace(list + ".AddRange( new string[] { MODULES } );", "MODULES",
                             m.value.capture + ", \"" + moduleName + "\"");
    InsertionTextIsCanonical(list, m.value.capture, moduleName);
    text := text[..start] + insertion + text[start..];
    return true, text;
  }

  /** Where the primary module's build rules live: `<source>/<name>/<name>.Build.cs`. */
  function PrimaryBuildPath(ctx: EngineContext, target: Option<Plugin>, isEditor: bool): string
  {
    var name := PrimaryTargetName(ctx, target, isEditor);
    PathJoin(PathJoin(PrimarySourceDir(ctx, target), name), name) + ".Build.cs"
  }

  /** The project's name or the plugin's, with `Editor` appended for editor modules. */
  function PrimaryTargetName(ctx: EngineContext, target: Option<Plugin>, isEditor: bool): string
  {
    var base := if target.None? then ctx.projectName else target.value.name;
    if isEditor then base + "Editor" else base
  }

  /** The project's source folder, or the plugin's `Source` folder. */
  function PrimarySourceDir(ctx: EngineContext, target: Option<Plugin>): string
  {
    if target.None? then ctx.gameSourceDir else PathJoin(target.value.baseDir, "Source")
  }

  /** The project's target rules file: `<source>/<project>[Editor].Target.cs`. */
  function TargetFilePath(ctx: EngineContext, isEditor: bool): string
  {
    var name := ctx.projectName;
    var name' := if isEditor then name + "Editor" else name;
    PathJoin(ctx.gameSourceDir, name') + ".Target.cs"
  }

  /**
   * Adds `moduleName` to the public dependency list of the primary module's
   * build rules. Fails, naming the file, when the file cannot be read or
   * holds no such declaration; `saveOk` is the outcome of the file save,
   * whose failure the source does not report.
   */
  method InsertDependencyIntoPrimaryBuild(ctx: EngineContext, find: Finder, fs: FileStore, moduleName: string,
                                          target: Option<Plugin>, isEditor: bool, saveOk: bool)
    returns (ok: bool, fs': FileStore, reason: Option<FailReason>)
    requires SoundFinder(find)
    ensures var path := PrimaryBuildPath(ctx, target, isEditor);
            ok <==> path in fs && find(PublicDependencyList, fs[path]).Some?
    ensures var path := PrimaryBuildPath(ctx, target, isEditor);
            ok && saveOk ==> fs' == fs[path := Spliced(fs[path], find(PublicDependencyList, fs[path]).value, PublicDependencyList, moduleName)]
    ensures !(ok && saveOk) ==> fs' == fs
    ensures reason == if ok then None else Some(UpdateFailed(PrimaryBuildPath(ctx, target, isEditor)))
  {
    var targetName := if target.None? then ctx.projectName else target.value.name;
    if isEditor {
      targetName := targetName + "Editor";
    }
    var sourcePath := if target.None? then ctx.gameSourceDir else PathJoin(target.value.baseDir, "Source");
    var targetPath := PathJoin(PathJoin(sourcePath, targetName), targetName) + ".Build.cs";
    if targetPath in fs {
      var found, contents := RewriteFirstDeclaration(find, PublicDependencyList, fs[targetPath], moduleName);
      if found {
        fs' := if saveOk then fs[targetPath := contents] else fs;
        return true, fs', None;
      }
    }
    return false, fs, Some(UpdateFailed(targetPath));
  }

  /**
   * Adds `moduleName` to the extra-modules list of the project's target
   * rules, with the same failure and save behaviour. When no declaration
   * is found nothing is inserted: the fallback insertion is disabled.
   */
  method InsertDependencyIntoTarget(ctx: EngineContext, find: Finder, fs: FileStore, moduleName: string,
                                    isEditor: bool, saveOk: bool)
    returns (ok: bool, fs': FileStore, reason: Option<FailReason>)
    requires SoundFinder(find)
    ensures var path := TargetFilePath(ctx, isEditor);
            ok <==> path in fs && find(ExtraModuleList, fs[path]).Some?
    ensures var path := TargetFilePath(ctx, isEditor);
            ok && saveOk ==> fs' == fs[path := Spliced(fs[path], find(ExtraModuleList, fs[path]).value, ExtraModuleList, moduleName)]
    ensures !(ok && saveOk) ==> fs' == fs
    ensures reason == if ok then None else Some(UpdateFailed(TargetFilePath(ctx, isEditor)))
  {
    var primaryGameTargetName := ctx.projectName;
    if isEditor {
      primaryGameTargetName := primaryGameTargetName + "Editor";
    }
    var targetPath := PathJoin(ctx.gameSourceDir, primaryGameTargetName) + ".Target.cs";
    if targetPath in fs {
      var found, contents := RewriteFirstDeclaration(find, ExtraModuleList, fs[targetPath], moduleName);
      if found {
        fs' := if saveOk then fs[targetPath := contents] else fs;
        return true, fs', None;
      }
    }
    return false, fs, Some(UpdateFailed(targetPath));
  }

  // ----- Properties of the rewrite -----

  /**
   * The canonical declaration is again a declaration of the list. Read by
   * the greedy pattern its entries include the space before `}`.
   */
  lemma CanonicalGreedyReading(text: string, m: Match, list: string, moduleName: string)
    requires m.start <= m.end <= |text|
    requires SingleLine(m.capture) && SingleLine(moduleName)
    ensures IsDeclarationAt(Spliced(text, m, list, moduleName), list,
              Match(m.start, m.start + |Canonical(list, m.capture, moduleName)|,
                    Gaps(" ", " ", " ", "", " "), NewEntries(m.capture, moduleName) + " "))
  {
    var g := Gaps(" ", " ", " ", "", " ");
    var entries := NewEntries(m.capture, moduleName);
    CanonicalIsDeclaration(list, m.capture, moduleName);
    assert AllSpace(" ") && AllSpace("");
    SingleLineConcat(m.capture, ", \"");
    SingleLineConcat(m.capture + ", \"", moduleName);
    SingleLineConcat(m.capture + ", \"" + moduleName, "\"");
    SingleLineConcat(entries, " ");
    SplicedDeclaration(text, m, list, moduleName, g, entries + " ");
  }

  /** The canonical declaration, read back: single blanks around, the capture taking the blank before `}`. */
  lemma CanonicalIsDeclaration(list: string, capture: string, moduleName: string)
    ensures Canonical(list, capture, moduleName)
            == DeclarationText(list, Gaps(" ", " ", " ", "", " "), NewEntries(capture, moduleName) + " ")
  {
    var g := Gaps(" ", " ", " ", "", " ");
    var entries := NewEntries(capture, moduleName);
    DeclarationParts(list, g, entries + " ");
    assert ".AddRange(" + " " + "new string[]" + " " + "{" + " " == ".AddRange( new string[] { ";
    assert "" + "}" + " " + ");" == "} );";
  }

  /** Where the canonical text has the shape of a declaration, the spliced text holds that declaration. */
  lemma SplicedDeclaration(text: string, m: Match, list: string, moduleName: string, g: Gaps, capture: string)
    requires m.start <= m.end <= |text|
    requires Canonical(list, m.capture, moduleName) == DeclarationText(list, g, capture)
    requires AllSpace(g.afterParen) && AllSpace(g.beforeBrace) && AllSpace(g.beforeEntries)
    requires AllSpace(g.afterEntries) && AllSpace(g.beforeClose) && SingleLine(capture)
    ensures IsDeclarationAt(Spliced(text, m, list, moduleName), list,
              Match(m.start, m.start + |Canonical(list, m.capture, moduleName)|, g, capture))
  {
  }

  /**
   * No deduplication: inserting a name again, into the declaration the
   * first insertion produced, appends it again. The text grows by the
   * quoted name, its separator and the space the greedy capture carried
   * over, whatever the entries were. The match of the second insertion is
   * the greedy reading of the rewritten declaration, supplied here by the
   * caller; `SoundFinder` fixes where a finder's match starts, not which
   * capture it takes.
   */
  lemma {:induction false} SecondInsertGrows(text: string, m: Match, list: string, moduleName: string)
    requires m.start <= m.end <= |text|
    requires SingleLine(m.capture) && SingleLine(moduleName)
    ensures var once := Spliced(text, m, list, moduleName);
            var m2 := Match(m.start, m.start + |Canonical(list, m.capture, moduleName)|,
                            Gaps(" ", " ", " ", "", " "), NewEntries(m.capture, moduleName) + " ");
            && IsDeclarationAt(once, list, m2)
            && |Spliced(once, m2, list, moduleName)| == |once| + |moduleName| + 5
            && NewEntries(m2.capture, moduleName) == m.capture + ", \"" + moduleName + "\" , \"" + moduleName + "\""
  {
    CanonicalGreedyReading(text, m, list, moduleName);
  }

  /** Text outside the span is untouched, the text after it shifted by the change in length. */
  lemma SpliceKeepsOutside(text: string, m: Match, list: string, moduleName: string, i: nat)
    requires m.start <= m.end <= |text| && i < |text|
    ensures var r := Spliced(text, m, list, moduleName);
            var k := |Canonical(list, m.capture, moduleName)|;
            && (i < m.start ==> r[i] == text[i])
            && (i >= m.end ==> r[i - m.end + m.start + k] == text[i])
  {
    var r := Spliced(text, m, list, moduleName);
    var k := |Canonical(list, m.capture, moduleName)|;
    if i < m.start {
      assert r[..m.start][i] == text[..m.start][i];
    } else if i >= m.end {
      assert r[m.start + k..][i - m.end] == text[m.end..][i - m.end];
    }
  }

  /** A one-line declaration written without a blank after `(` and with single blanks around the entries. */
  function CompactLine(indent: string, list: string, entries: string): string
  {
    indent + list + ".AddRange(new string[] { " + entries + " });"
  }

  /** The same line after the rewrite put `names` after the entries. */
  function RewrittenLine(indent: string, list: string, entries: string, names: string): string
  {
    indent + list + ".AddRange( new string[] { " + entries + names + " } );"
  }

  /** A declaration's text as the list name, the fixed opening, the entries and the fixed closing. */
  lemma DeclarationParts(list: string, g: Gaps, capture: string)
    ensures DeclarationText(list, g, capture)
            == list + (".AddRange(" + g.afterParen + "new string[]" + g.beforeBrace + "{" + g.beforeEntries)
               + capture + (g.afterEntries + "}" + g.beforeClose + ");")
  {
  }

  /** A declaration written after some indentation is found right after it. */
  lemma DeclarationAfterIndent(indent: string, list: string, g: Gaps, capture: string)
    requires AllSpace(g.afterParen) && AllSpace(g.beforeBrace) && AllSpace(g.beforeEntries)
    requires AllSpace(g.afterEntries) && AllSpace(g.beforeClose) && SingleLine(capture)
    ensures var line := indent + DeclarationText(list, g, capture);
            IsDeclarationAt(line, list, Match(|indent|, |line|, g, capture))
  {
    var line := indent + DeclarationText(list, g, capture);
    assert line[|indent|..|line|] == DeclarationText(list, g, capture);
  }

  /** The greedy pattern reads a compact line with the blank after the last entry inside the capture. */
  lemma CompactLineRead(indent: string, list: string, entries: string)
    requires SingleLine(entries)
    ensures IsDeclarationAt(CompactLine(indent, list, entries), list,
              Match(|indent|, |CompactLine(indent, list, entries)|, Gaps("", " ", " ", "", ""), entries + " "))
  {
    var g := Gaps("", " ", " ", "", "");
    DeclarationParts(list, g, entries + " ");
    assert ".AddRange(" + "" + "new string[]" + " " + "{" + " " == ".AddRange(new string[] { ";
    assert "" + "}" + "" + ");" == "});";
    assert CompactLine(indent, list, entries) == indent + DeclarationText(list, g, entries + " ");
    SingleLineConcat(entries, " ");
    assert AllSpace(" ") && AllSpace("");
    DeclarationAfterIndent(indent, list, g, entries + " ");
  }

  /** Likewise a rewritten line, whose capture again takes the blank before `}`. */
  lemma RewrittenLineRead(indent: string, list: string, entries: string, names: string)
    requires SingleLine(entries + names)
    ensures IsDeclarationAt(RewrittenLine(indent, list, entries, names), list,
              Match(|indent|, |RewrittenLine(indent, list, entries, names)|, Gaps(" ", " ", " ", "", " "), entries + names + " "))
  {
    var g := Gaps(" ", " ", " ", "", " ");
    DeclarationParts(list, g, entries + names + " ");
    assert ".AddRange(" + " " + "new string[]" + " " + "{" + " " == ".AddRange( new string[] { ";
    assert "" + "}" + " " + ");" == "} );";
    assert RewrittenLine(indent, list, entries, names) == indent + DeclarationText(list, g, entries + names + " ");
    SingleLineConcat(entries + names, " ");
    assert AllSpace(" ") && AllSpace("");
    DeclarationAfterIndent(indent, list, g, entries + names + " ");
  }

  function Quoted(name: string): string
  {
    "\"" + name + "\""
  }

  /** Rewriting a line read as a whole puts the quoted name after the entries read. */
  lemma RewriteWholeLine(indent: string, list: string, capture: string, moduleName: string, line: string, gaps: Gaps)
    requires |indent| <= |line| && line[..|indent|] == indent
    ensures Spliced(line, Match(|indent|, |line|, gaps, capture), list, moduleName)
            == indent + list + ".AddRange( new string[] { " + (capture + ", " + Quoted(moduleName)) + " } );"
  {
    assert line[|line|..] == [];
    assert NewEntries(capture, moduleName) == capture + ", " + Quoted(moduleName);
  }

  /** A compact line, rewritten, carries the captured blank before the new comma. */
  lemma CompactLineInsert(indent: string, list: string, entries: string, moduleName: string)
    requires SingleLine(entries)
    ensures var line := CompactLine(indent, list, entries);
            var m := Match(|indent|, |line|, Gaps("", " ", " ", "", ""), entries + " ");
            && IsDeclarationAt(line, list, m)
            && Spliced(line, m, list, moduleName) == RewrittenLine(indent, list, entries, " , " + Quoted(moduleName))
  {
    var line := CompactLine(indent, list, entries);
    CompactLineRead(indent, list, entries);
    assert line[..|indent|] == indent;
    RewriteWholeLine(indent, list, entries + " ", moduleName, line, Gaps("", " ", " ", "", ""));
    assert (entries + " ") + ", " + Quoted(moduleName) == entries + (" , " + Quoted(moduleName));
  }

  /**
   * A rewritten line, rewritten again, gets the quoted name appended once
   * more after its entries: names already listed are not looked at.
   */
  lemma RewrittenLineInsert(indent: string, list: string, entries: string, names: string, moduleName: string)
    requires SingleLine(entries + names)
    ensures var line := RewrittenLine(indent, list, entries, names);
            var m := Match(|indent|, |line|, Gaps(" ", " ", " ", "", " "), entries + names + " ");
            && IsDeclarationAt(line, list, m)
            && Spliced(line, m, list, moduleName) == RewrittenLine(indent, list, entries, names + " , " + Quoted(moduleName))
  {
    var line := RewrittenLine(indent, list, entries, names);
    RewrittenLineRead(indent, list, entries, names);
    assert line[..|indent|] == indent;
    RewriteWholeLine(indent, list, entries + names + " ", moduleName, line, Gaps(" ", " ", " ", "", " "));
    assert (entries + names + " ") + ", " + Quoted(moduleName) == entries + (names + " , " + Quoted(moduleName));
  }

  /** The dependency list of this plugin's own editor module's build rules. */
  const ExampleEntries := "\"Core\", " + "\"CoreUObject\", " + "\"Engine\", " + "\"InputCore\", " + "\"AssetTools\", " + "\"ApplicationCore\""

  /** The example's entries stay on one line, before and after the insertion. */
  lemma ExampleIsSingleLine()
    ensures SingleLine(ExampleEntries) && SingleLine(ExampleEntries + " , " + Quoted("Gameplay"))
  {
    FirstEntriesSingleLine();
    LastEntriesSingleLine();
    SingleLineConcat(FirstEntries, LastEntries);
    assert ExampleEntries == FirstEntries + LastEntries;
    AddedEntrySingleLine();
    SingleLineConcat(ExampleEntries, " , " + Quoted("Gameplay"));
    assert ExampleEntries + " , " + Quoted("Gameplay") == ExampleEntries + (" , " + Quoted("Gameplay"));
  }

  const FirstEntries := "\"Core\", " + "\"CoreUObject\", " + "\"Engine\", "
  const LastEntries := "\"InputCore\", " + "\"AssetTools\", " + "\"ApplicationCore\""

  lemma FirstEntriesSingleLine()
    ensures SingleLine(FirstEntries)
  {
    PiecesSingleLine("\"Core\", ", "\"CoreUObject\", ", "\"Engine\", ");
  }

  lemma LastEntriesSingleLine()
    ensures SingleLine(LastEntries)
  {
    LongestEntrySingleLine();
    PiecesSingleLine("\"InputCore\", ", "\"AssetTools\", ", "\"ApplicationCore\"");
  }

  lemma LongestEntrySingleLine()
    ensures SingleLine("\"ApplicationCore\"")
  {
    PiecesSingleLine("\"", "ApplicationCore", "\"");
  }

  lemma AddedEntrySingleLine()
    ensures SingleLine(" , " + Quoted("Gameplay"))
  {
    PiecesSingleLine(" , ", "\"", "Gameplay");
    SingleLineConcat(" , " + "\"" + "Gameplay", "\"");
  }

  lemma PiecesSingleLine(a: string, b: string, c: string)
    requires |a| + |b| + |c| <= 48 && SingleLine(a) && SingleLine(b) && SingleLine(c)
    ensures SingleLine(a + b + c)
  {
  }

  lemma SingleLineConcat(a: string, b: string)
    ensures SingleLine(a + b) <==> SingleLine(a) && SingleLine(b)
  {
  }

  /**
   * Adding `Gameplay` twice to that module's eight-space-indented
   * dependency line: the name ends up listed twice, each time after a
   * blank carried over by the greedy capture. Both matches are the greedy
   * readings written out here, not a finder's result.
   */
  lemma ExampleInsertTwice()
    ensures var indent := "        ";
            var line := CompactLine(indent, PublicDependencyList, ExampleEntries);
            var names := " , " + Quoted("Gameplay");
            var once := RewrittenLine(indent, PublicDependencyList, ExampleEntries, names);
            var first := Match(|indent|, |line|, Gaps("", " ", " ", "", ""), ExampleEntries + " ");
            var second := Match(|indent|, |once|, Gaps(" ", " ", " ", "", " "), ExampleEntries + names + " ");
            && IsDeclarationAt(line, PublicDependencyList, first)
            && Spliced(line, first, PublicDependencyList, "Gameplay") == once
            && IsDeclarationAt(once, PublicDependencyList, second)
            && Spliced(once, second, PublicDependencyList, "Gameplay")
               == RewrittenLine(indent, PublicDependencyList, ExampleEntries, names + names)
  {
    ExampleIsSingleLine();
    ExampleInsertsTwice("        ", PublicDependencyList, ExampleEntries, "Gameplay");
  }

  /**
   * Two insertions of one name into a compact line list that name twice,
   * each at the greedy reading of the declaration it rewrites.
   */
  lemma ExampleInsertsTwice(indent: string, list: string, entries: string, moduleName: string)
    requires SingleLine(entries) && SingleLine(entries + " , " + Quoted(moduleName))
    ensures var line := CompactLine(indent, list, entries);
            var names := " , " + Quoted(moduleName);
            var once := RewrittenLine(indent, list, entries, names);
            var first := Match(|indent|, |line|, Gaps("", " ", " ", "", ""), entries + " ");
            var second := Match(|indent|, |once|, Gaps(" ", " ", " ", "", " "), entries + names + " ");
            && IsDeclarationAt(line, list, first)
            && Spliced(line, first, list, moduleName) == once
            && IsDeclarationAt(once, list, second)
            && Spliced(once, second, list, moduleName) == RewrittenLine(indent, list, entries, names + names)
  {
    var names := " , " + Quoted(moduleName);
    assert entries + " , " + Quoted(moduleName) == entries + names;
    CompactLineInsert(indent, list, entries, moduleName);
    RewrittenLineInsert(indent, list, entries, names, moduleName);
  }
}
