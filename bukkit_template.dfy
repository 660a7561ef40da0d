/**
  * The Bukkit project templates: how a project's metadata becomes the
  * placeholder map that the shared templating routine fills a template with.
  *
  * The templating routine itself (applyTemplate) lives outside this model; a
  * call to it is represented by the `TemplateCall` value naming the template
  * and the map it is given.
  */
module BukkitTemplate {
  import opened Text
  import opened Placeholders

  const MainClassTemplate := "Bukkit Main Class.java"
  const MainClassKotlinTemplate := "Bukkit Main Class.kt"
  const BuildGradleTemplate := "Bukkit build.gradle"
  const SettingsGradleTemplate := "Bukkit settings.gradle"
  const BuildGradleKtsTemplate := "Bukkit build.gradle.kts"
  const SettingsGradleKtsTemplate := "Bukkit settings.gradle.kts"

  /** What every list-valued placeholder puts between two entries. */
  const Separator := ", "

  /** The metadata of the project being generated, as the project system reports it. */
  datatype ProjectSystem = ProjectSystem(
    name: string,
    version: string,
    description: string,
    dependencies: seq<string>,
    softDependencies: seq<string>,
    loadBefore: seq<string>,
    authors: seq<string>,
    loadOrder: string,
    groupId: string,
    artifactId: string)

  /** A call of the templating routine: which template, filled from which map. */
  datatype TemplateCall = ApplyTemplate(template: string, properties: PlaceholderMap)

  // ---------------------------------------------------------------------------
  // Entry formatting

  /** A hard dependency as an annotation; the name is inserted verbatim, quotes and all. */
  function FormatHard(dependency: string): string
  {
    "@PluginDependency(" + "\"" + dependency + "\"" + ")"
  }

  /** A soft dependency as an annotation with the soft flag set. */
  function FormatSoft(dependency: string): string
  {
    "@PluginDependency(" + "\"" + dependency + "\"" + ", soft = true)"
  }

  /** A name in double quotes, without escaping. */
  function Quote(name: string): string
  {
    "\"" + name + "\""
  }

  /** Each entry holds its name verbatim between a fixed prefix and a fixed suffix: nothing is escaped. */
  lemma EntryNamesVerbatim(name: string)
    ensures var e := FormatHard(name); |e| == |name| + 21 && e[19..|e| - 2] == name
    ensures var e := FormatSoft(name); |e| == |name| + 34 && e[19..|e| - 15] == name
    ensures var e := Quote(name); |e| == |name| + 2 && e[1..|e| - 1] == name
  {
  }

  function HardEntries(dependencies: seq<string>): seq<string>
  {
    seq(|dependencies|, i requires 0 <= i < |dependencies| => FormatHard(dependencies[i]))
  }

  function SoftEntries(softDependencies: seq<string>): seq<string>
  {
    seq(|softDependencies|, i requires 0 <= i < |softDependencies| => FormatSoft(softDependencies[i]))
  }

  function QuotedEntries(names: seq<string>): seq<string>
  {
    seq(|names|, i requires 0 <= i < |names| => Quote(names[i]))
  }

  /** The DEPEND value: hard entries first, then soft ones, all joined by the separator. */
  function DependValue(dependencies: seq<string>, softDependencies: seq<string>): string
  {
    Join(Separator, HardEntries(dependencies) + SoftEntries(softDependencies))
  }

  /** The LOAD_BEFORE and AUTHOR values: the names quoted and joined by the separator. */
  function QuotedValue(names: seq<string>): string
  {
    Join(Separator, QuotedEntries(names))
  }

  // ---------------------------------------------------------------------------
  // The main-class map

  predicate HasDepend(ps: ProjectSystem)
  {
    |ps.dependencies| > 0 || |ps.softDependencies| > 0
  }

  /** An entry put only when `present` holds. */
  function Optional(present: bool, key: string, value: string): PlaceholderMap
  {
    if present then [(key, value)] else []
  }

  /** The entries applyMainClass always puts first. */
  function ScalarEntries(packageName: string, className: string, ps: ProjectSystem): PlaceholderMap
  {
    [("PACKAGE", packageName), ("CLASS_NAME", className), ("NAME", ps.name),
     ("VERSION", ps.version), ("DESCRIPTION", ps.description)]
  }

  /** The map applyMainClass builds, entry by entry in the order it puts them. */
  function MainClassProperties(packageName: string, className: string, ps: ProjectSystem): PlaceholderMap
  {
    ScalarEntries(packageName, className, ps)
    + Optional(HasDepend(ps), "DEPEND", DependValue(ps.dependencies, ps.softDependencies))
    + Optional(|ps.loadBefore| > 0, "LOAD_BEFORE", QuotedValue(ps.loadBefore))
    + Optional(|ps.authors| > 0, "AUTHOR", QuotedValue(ps.authors))
    + [("LOAD_ORDER", ps.loadOrder)]
  }

  // ---------------------------------------------------------------------------
  // The StringBuilder loops

  /** One pass of the hard-dependency loop, with the separator guard the loop uses. */
  lemma DependHardStep(dependencies: seq<string>, softDependencies: seq<string>, i: nat)
    requires i < |dependencies|
    ensures var entries := HardEntries(dependencies) + SoftEntries(softDependencies);
      JoinedUpTo(Separator, entries, i + 1)
        == JoinedUpTo(Separator, entries, i) + FormatHard(dependencies[i])
           + (if i != |dependencies| - 1 || |softDependencies| > 0 then Separator else "")
  {
    var entries := HardEntries(dependencies) + SoftEntries(softDependencies);
    JoinedUpToStep(Separator, entries, i);
    assert entries[i] == FormatHard(dependencies[i]);
  }

  /** One pass of the soft-dependency loop, with the separator guard the loop uses. */
  lemma DependSoftStep(dependencies: seq<string>, softDependencies: seq<string>, i: nat)
    requires i < |softDependencies|
    ensures var entries := HardEntries(dependencies) + SoftEntries(softDependencies);
      JoinedUpTo(Separator, entries, |dependencies| + i + 1)
        == JoinedUpTo(Separator, entries, |dependencies| + i) + FormatSoft(softDependencies[i])
           + (if i != |softDependencies| - 1 then Separator else "")
  {
    var entries := HardEntries(dependencies) + SoftEntries(softDependencies);
    JoinedUpToStep(Separator, entries, |dependencies| + i);
    assert entries[|dependencies| + i] == FormatSoft(softDependencies[i]);
  }

  /**
    * The DEPEND loops: each hard dependency, then each soft one, is appended
    * with a separator after it unless it is the very last entry.
    */
  method RenderDepend(dependencies: seq<string>, softDependencies: seq<string>) returns (s: string)
    ensures s == DependValue(dependencies, softDependencies)
  {
    ghost var entries := HardEntries(dependencies) + SoftEntries(softDependencies);
    s := "";
    for i := 0 to |dependencies|
      invariant s == JoinedUpTo(Separator, entries, i)
    {
      var dependency := dependencies[i];
      DependHardStep(dependencies, softDependencies, i);
      s := s + FormatHard(dependency);
      if i != |dependencies| - 1 || |softDependencies| > 0 {
        s := s + Separator;
      }
    }
    for i := 0 to |softDependencies|
      invariant s == JoinedUpTo(Separator, entries, |dependencies| + i)
    {
      var dependency := softDependencies[i];
      DependSoftStep(dependencies, softDependencies, i);
      s := s + FormatSoft(dependency);
      if i != |softDependencies| - 1 {
        s := s + Separator;
      }
    }
    JoinedUpToAll(Separator, entries);
  }

  /**
    * The LOAD_BEFORE and AUTHOR loops: each name is appended in quotes, with
    * a separator after it unless it is the last one.
    */
  method RenderQuoted(names: seq<string>) returns (s: string)
    ensures s == QuotedValue(names)
  {
    ghost var quoted := QuotedEntries(names);
    s := "";
    for i := 0 to |names|
      invariant s == JoinedUpTo(Separator, quoted, i)
    {
      var name := names[i];
      JoinedUpToStep(Separator, quoted, i);
      s := s + Quote(name);
      if i != |names| - 1 {
        s := s + Separator;
      }
    }
    JoinedUpToAll(Separator, quoted);
  }

  // ---------------------------------------------------------------------------
  // The template operations

  /** applyMainClass: puts the entries into a builder in order and picks the template. */
  method ApplyMainClass(packageName: string, className: string, ps: ProjectSystem, kotlin: bool)
    returns (call: TemplateCall)
    ensures call.template == (if kotlin then MainClassKotlinTemplate else MainClassTemplate)
    ensures call.properties == MainClassProperties(packageName, className, ps)
  {
    var builder := new MapBuilder();
    builder.Put("PACKAGE", packageName);
    builder.Put("CLASS_NAME", className);
    builder.Put("NAME", ps.name);
    builder.Put("VERSION", ps.version);
    builder.Put("DESCRIPTION", ps.description);
    ghost var expected := ScalarEntries(packageName, className, ps);
    assert builder.entries == expected;

    if |ps.dependencies| > 0 || |ps.softDependencies| > 0 {
      var depend := RenderDepend(ps.dependencies, ps.softDependencies);
      builder.Put("DEPEND", depend);
    }
    expected := expected + Optional(HasDepend(ps), "DEPEND", DependValue(ps.dependencies, ps.softDependencies));
    assert builder.entries == expected;

    if |ps.loadBefore| > 0 {
      var loadBefore := RenderQuoted(ps.loadBefore);
      builder.Put("LOAD_BEFORE", loadBefore);
    }
    expected := expected + Optional(|ps.loadBefore| > 0, "LOAD_BEFORE", QuotedValue(ps.loadBefore));
    assert builder.entries == expected;

    if |ps.authors| > 0 {
      var authors := RenderQuoted(ps.authors);
      builder.Put("AUTHOR", authors);
    }
    expected := expected + Optional(|ps.authors| > 0, "AUTHOR", QuotedValue(ps.authors));
    assert builder.entries == expected;

    builder.Put("LOAD_ORDER", ps.loadOrder);
    assert builder.entries == MainClassProperties(packageName, className, ps);

    MainClassKeysDistinct(packageName, className, ps);
    if kotlin {
      return ApplyTemplate(MainClassKotlinTemplate, builder.Build());
    }
    return ApplyTemplate(MainClassTemplate, builder.Build());
  }

  /** applySettingsGradle: the map holds exactly ARTIFACT_ID. */
  function ApplySettingsGradle(ps: ProjectSystem): (call: TemplateCall)
    ensures call.template == SettingsGradleTemplate
    ensures Keys(call.properties) == ["ARTIFACT_ID"]
    ensures Lookup(call.properties, "ARTIFACT_ID") == Some(ps.artifactId)
  {
    ApplyTemplate(SettingsGradleTemplate, [("ARTIFACT_ID", ps.artifactId)])
  }

  /** applySettingsGradleKts: the same map as the Groovy script, for the Kotlin script. */
  function ApplySettingsGradleKts(ps: ProjectSystem): (call: TemplateCall)
    ensures call.template == SettingsGradleKtsTemplate
    ensures Keys(call.properties) == ["ARTIFACT_ID"]
    ensures Lookup(call.properties, "ARTIFACT_ID") == Some(ps.artifactId)
  {
    ApplyTemplate(SettingsGradleKtsTemplate, [("ARTIFACT_ID", ps.artifactId)])
  }

  /** applyBuildGradle: GROUP_ID and VERSION, where VERSION is bound to the artifact id. */
  function ApplyBuildGradle(ps: ProjectSystem): (call: TemplateCall)
    ensures call.template == BuildGradleTemplate
    ensures Keys(call.properties) == ["GROUP_ID", "VERSION"]
    ensures Lookup(call.properties, "GROUP_ID") == Some(ps.groupId)
    ensures Lookup(call.properties, "VERSION") == Some(ps.artifactId)
  {
    ApplyTemplate(BuildGradleTemplate, [("GROUP_ID", ps.groupId), ("VERSION", ps.artifactId)])
  }

  /** applyBuildGradleKts: the same map as the Groovy script, for the Kotlin script. */
  function ApplyBuildGradleKts(ps: ProjectSystem): (call: TemplateCall)
    ensures call.template == BuildGradleKtsTemplate
    ensures Keys(call.properties) == ["GROUP_ID", "VERSION"]
    ensures Lookup(call.properties, "GROUP_ID") == Some(ps.groupId)
    ensures Lookup(call.properties, "VERSION") == Some(ps.artifactId)
  {
    ApplyTemplate(BuildGradleKtsTemplate, [("GROUP_ID", ps.groupId), ("VERSION", ps.artifactId)])
  }

  // ---------------------------------------------------------------------------
  // What the main-class map holds

  /** The main-class keys in the order they are put, optional ones present as the flags say. */
  function KeyOrder(depend: bool, loadBefore: bool, author: bool): seq<string>
  {
    ["PACKAGE", "CLASS_NAME", "NAME", "VERSION", "DESCRIPTION"]
    + (if depend then ["DEPEND"] else [])
    + (if loadBefore then ["LOAD_BEFORE"] else [])
    + (if author then ["AUTHOR"] else [])
    + ["LOAD_ORDER"]
  }

  lemma KeyOrderDistinct(depend: bool, loadBefore: bool, author: bool, i: int, j: int)
    requires 0 <= i < j < |KeyOrder(depend, loadBefore, author)|
    ensures KeyOrder(depend, loadBefore, author)[i] != KeyOrder(depend, loadBefore, author)[j]
  {
  }

  /**
    * The keys of the main-class map, in order: DEPEND, LOAD_BEFORE and AUTHOR
    * only when their lists are non-empty.
    */
  lemma MainClassKeys(packageName: string, className: string, ps: ProjectSystem)
    ensures Keys(MainClassProperties(packageName, className, ps))
         == KeyOrder(HasDepend(ps), |ps.loadBefore| > 0, |ps.authors| > 0)
  {
    var scalars := ScalarEntries(packageName, className, ps);
    var depend := Optional(HasDepend(ps), "DEPEND", DependValue(ps.dependencies, ps.softDependencies));
    var loadBefore := Optional(|ps.loadBefore| > 0, "LOAD_BEFORE", QuotedValue(ps.loadBefore));
    var authors := Optional(|ps.authors| > 0, "AUTHOR", QuotedValue(ps.authors));
    var loadOrder: PlaceholderMap := [("LOAD_ORDER", ps.loadOrder)];
    assert Keys(scalars) == ["PACKAGE", "CLASS_NAME", "NAME", "VERSION", "DESCRIPTION"];
    assert Keys(depend) == if HasDepend(ps) then ["DEPEND"] else [];
    assert Keys(loadBefore) == if |ps.loadBefore| > 0 then ["LOAD_BEFORE"] else [];
    assert Keys(authors) == if |ps.authors| > 0 then ["AUTHOR"] else [];
    assert Keys(loadOrder) == ["LOAD_ORDER"];
    KeysAppend(scalars, depend);
    KeysAppend(scalars + depend, loadBefore);
    KeysAppend(scalars + depend + loadBefore, authors);
    KeysAppend(scalars + depend + loadBefore + authors, loadOrder);
  }

  /** No key of the main-class map is put twice, so building it never fails. */
  lemma MainClassKeysDistinct(packageName: string, className: string, ps: ProjectSystem)
    ensures DistinctKeys(MainClassProperties(packageName, className, ps))
  {
    var m := MainClassProperties(packageName, className, ps);
    MainClassKeys(packageName, className, ps);
    var keys := Keys(m);
    forall i, j | 0 <= i < j < |m|
      ensures m[i].0 != m[j].0
    {
      assert keys[i] == m[i].0 && keys[j] == m[j].0;
      KeyOrderDistinct(HasDepend(ps), |ps.loadBefore| > 0, |ps.authors| > 0, i, j);
    }
  }

  /** The scalar keys are always bound, each verbatim to its input. */
  lemma MainClassScalars(packageName: string, className: string, ps: ProjectSystem)
    ensures var m := MainClassProperties(packageName, className, ps);
      && Lookup(m, "PACKAGE") == Some(packageName)
      && Lookup(m, "CLASS_NAME") == Some(className)
      && Lookup(m, "NAME") == Some(ps.name)
      && Lookup(m, "VERSION") == Some(ps.version)
      && Lookup(m, "DESCRIPTION") == Some(ps.description)
      && Lookup(m, "LOAD_ORDER") == Some(ps.loadOrder)
  {
    var m := MainClassProperties(packageName, className, ps);
    MainClassKeysDistinct(packageName, className, ps);
    LookupAt(m, 0);
    LookupAt(m, 1);
    LookupAt(m, 2);
    LookupAt(m, 3);
    LookupAt(m, 4);
    LookupAt(m, |m| - 1);
  }

  /** DEPEND is bound exactly when there is a hard or soft dependency, to their joined entries. */
  lemma MainClassDepend(packageName: string, className: string, ps: ProjectSystem)
    ensures Lookup(MainClassProperties(packageName, className, ps), "DEPEND")
         == if |ps.dependencies| > 0 || |ps.softDependencies| > 0
            then Some(DependValue(ps.dependencies, ps.softDependencies)) else None
  {
    var m := MainClassProperties(packageName, className, ps);
    if HasDepend(ps) {
      MainClassKeysDistinct(packageName, className, ps);
      LookupAt(m, 5);
    } else {
      MainClassKeys(packageName, className, ps);
      LookupPresent(m, "DEPEND");
    }
  }

  /** LOAD_BEFORE is bound exactly when the load-before list is non-empty, to its quoted names. */
  lemma MainClassLoadBefore(packageName: string, className: string, ps: ProjectSystem)
    ensures Lookup(MainClassProperties(packageName, className, ps), "LOAD_BEFORE")
         == if |ps.loadBefore| > 0 then Some(QuotedValue(ps.loadBefore)) else None
  {
    var m := MainClassProperties(packageName, className, ps);
    if |ps.loadBefore| > 0 {
      MainClassKeysDistinct(packageName, className, ps);
      LookupAt(m, if HasDepend(ps) then 6 else 5);
    } else {
      MainClassKeys(packageName, className, ps);
      LookupPresent(m, "LOAD_BEFORE");
    }
  }

  /** AUTHOR is bound exactly when the author list is non-empty, to its quoted names. */
  lemma MainClassAuthor(packageName: string, className: string, ps: ProjectSystem)
    ensures Lookup(MainClassProperties(packageName, className, ps), "AUTHOR")
         == if |ps.authors| > 0 then Some(QuotedValue(ps.authors)) else None
  {
    var m := MainClassProperties(packageName, className, ps);
    if |ps.authors| > 0 {
      MainClassKeysDistinct(packageName, className, ps);
      LookupAt(m, |m| - 2);
    } else {
      MainClassKeys(packageName, className, ps);
      LookupPresent(m, "AUTHOR");
    }
  }

  // ---------------------------------------------------------------------------
  // What the list values look like

  /**
    * Hard entries come first; a separator stands between the last hard entry
    * and the first soft one exactly when both lists are non-empty.
    */
  lemma DependGroups(dependencies: seq<string>, softDependencies: seq<string>)
    ensures |softDependencies| == 0 ==> DependValue(dependencies, softDependencies) == Join(Separator, HardEntries(dependencies))
    ensures |dependencies| == 0 ==> DependValue(dependencies, softDependencies) == Join(Separator, SoftEntries(softDependencies))
    ensures |dependencies| > 0 && |softDependencies| > 0 ==>
      DependValue(dependencies, softDependencies)
        == Join(Separator, HardEntries(dependencies)) + Separator + Join(Separator, SoftEntries(softDependencies))
  {
    var hard := HardEntries(dependencies);
    var soft := SoftEntries(softDependencies);
    if |softDependencies| == 0 {
      assert hard + soft == hard;
    }
    if |dependencies| == 0 {
      assert hard + soft == soft;
    }
    if |dependencies| > 0 && |softDependencies| > 0 {
      JoinConcat(Separator, hard, soft);
    }
  }

  /** A non-empty DEPEND value holds its entries and |deps| + |softDeps| - 1 separators. */
  lemma DependLength(dependencies: seq<string>, softDependencies: seq<string>)
    requires |dependencies| > 0 || |softDependencies| > 0
    ensures |DependValue(dependencies, softDependencies)|
         == TotalLength(HardEntries(dependencies) + SoftEntries(softDependencies))
            + (|dependencies| + |softDependencies| - 1) * |Separator|
  {
    JoinLength(Separator, HardEntries(dependencies) + SoftEntries(softDependencies));
  }

  /** A non-empty DEPEND value ends with an annotation's closing parenthesis, never with the separator. */
  lemma DependEnd(dependencies: seq<string>, softDependencies: seq<string>)
    requires |dependencies| > 0 || |softDependencies| > 0
    ensures EndsWith(DependValue(dependencies, softDependencies), ")")
    ensures !EndsWith(DependValue(dependencies, softDependencies), Separator)
  {
    var entries := HardEntries(dependencies) + SoftEntries(softDependencies);
    var value := DependValue(dependencies, softDependencies);
    JoinEnds(Separator, entries);
    var last := entries[|entries| - 1];
    assert last[|last| - 1] == ')';
    assert value[|value| - |last|..][|last| - 1] == value[|value| - 1];
    assert value[|value| - 1] == ')';
  }

  /** A non-empty DEPEND value starts with its first entry: the first hard one if any, else the first soft one. */
  lemma DependStart(dependencies: seq<string>, softDependencies: seq<string>)
    requires |dependencies| > 0 || |softDependencies| > 0
    ensures StartsWith(DependValue(dependencies, softDependencies),
                       if |dependencies| > 0 then FormatHard(dependencies[0]) else FormatSoft(softDependencies[0]))
  {
    var entries := HardEntries(dependencies) + SoftEntries(softDependencies);
    JoinEnds(Separator, entries);
  }

  /** A non-empty quoted list starts with its first name in quotes. */
  lemma QuotedStart(names: seq<string>)
    requires |names| > 0
    ensures StartsWith(QuotedValue(names), Quote(names[0]))
  {
    JoinEnds(Separator, QuotedEntries(names));
  }

  /** A non-empty quoted list holds its quoted names and |names| - 1 separators. */
  lemma QuotedLength(names: seq<string>)
    requires |names| > 0
    ensures |QuotedValue(names)| == TotalLength(QuotedEntries(names)) + (|names| - 1) * |Separator|
  {
    JoinLength(Separator, QuotedEntries(names));
  }

  /** A non-empty quoted list ends with a closing quote, never with the separator. */
  lemma QuotedEnd(names: seq<string>)
    requires |names| > 0
    ensures EndsWith(QuotedValue(names), "\"")
    ensures !EndsWith(QuotedValue(names), Separator)
  {
    var entries := QuotedEntries(names);
    var value := QuotedValue(names);
    JoinEnds(Separator, entries);
    var last := entries[|entries| - 1];
    assert last[|last| - 1] == '"';
    assert value[|value| - |last|..][|last| - 1] == value[|value| - 1];
    assert value[|value| - 1] == '"';
  }

  /** Two hard dependencies and one soft one, in that order. */
  lemma DependExample()
    ensures DependValue(["A", "B"], ["C"])
         == "@PluginDependency(\"A\")" + ", " + "@PluginDependency(\"B\")" + ", "
            + "@PluginDependency(\"C\", soft = true)"
  {
    var a, b, c := FormatHard("A"), FormatHard("B"), FormatSoft("C");
    assert a == "@PluginDependency(\"A\")";
    assert b == "@PluginDependency(\"B\")";
    assert c == "@PluginDependency(\"C\", soft = true)";
    assert HardEntries(["A", "B"]) == [a, b];
    assert SoftEntries(["C"]) == [c];
    var entries := [a, b] + [c];
    assert entries[1..] == [b, c] && [b, c][1..] == [c];
    calc {
      Join(Separator, entries);
      a + Separator + Join(Separator, [b, c]);
      a + Separator + (b + Separator + Join(Separator, [c]));
      a + Separator + (b + Separator + c);
    }
  }

  /** Two authors, each quoted. */
  lemma QuotedExample()
    ensures QuotedValue(["Alice", "Bob"]) == "\"Alice\", \"Bob\""
  {
    var entries := QuotedEntries(["Alice", "Bob"]);
    assert entries == [Quote("Alice"), Quote("Bob")];
    assert entries[1..] == [Quote("Bob")];
  }
}
