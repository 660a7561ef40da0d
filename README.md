# Bukkit project templates: placeholder-map assembly

This project models the part of the IntelliJ plugin's `BukkitTemplate` that turns a Bukkit project's
metadata into the placeholder maps handed to the shared templating routine. The routine fills a
template (main class, Gradle build and settings scripts) with those maps.

- `applyMainClass` puts the scalar keys `PACKAGE`, `CLASS_NAME`, `NAME`, `VERSION` and `DESCRIPTION`
  into a Guava `ImmutableMap.Builder`.
- It then adds `DEPEND`, `LOAD_BEFORE` and `AUTHOR`, each only when its list is non-empty. Each value
  is rendered by a `StringBuilder` loop.
- It puts `LOAD_ORDER` last.
- It picks the Kotlin or Java main-class template from a flag.
- The four Gradle operations build fixed one- or two-entry maps.

Files:

- `text.dfy` (module `Text`): `Join` with a separator and its lemmas. `JoinedUpTo` is what an
  append-then-maybe-separator loop has written after `k` parts.
- `placeholders.dfy` (module `Placeholders`): an insertion-ordered map as a sequence of entries, with
  `Keys`, `Lookup` and `DistinctKeys`. Class `MapBuilder` stands for `ImmutableMap.Builder`.
- `bukkit_template.dfy` (module `BukkitTemplate`) holds four groups of members:
  - the entry formats;
  - the specification function `MainClassProperties`;
  - the loop methods `RenderDepend` and `RenderQuoted`, proved against `Join`;
  - `ApplyMainClass`, the Gradle operations and the lemmas about the main-class map.

Modelling decisions:

- The templating routine `applyTemplate` belongs to `BaseTemplate`, which is not part of this model.
  Each operation returns a `TemplateCall` value instead. It holds the template name and the map that
  the source passes to `applyTemplate`.
- The project system is a plain `ProjectSystem` value with its names, strings and lists.
- Each local `StringBuilder` is a local `string` that the loop reassigns.
- Guava's `ImmutableMap` keeps insertion order. So a map is a `seq<(string, string)>`, and `Lookup`
  returns the first binding of a key.
- `ImmutableMap.Builder.build` throws on a duplicate key. `MapBuilder.Build` therefore requires
  distinct keys, and `MainClassKeysDistinct` proves that `applyMainClass` never puts a key twice.
- The main-class entries are `@PluginDependency("x")` and `@PluginDependency("x", soft = true)`, with
  the leading `@` as the code writes them (BukkitTemplate.java:41, 54).
- `applyBuildGradle` and `applyBuildGradleKts` bind `VERSION` to the artifact id, not to a version.
  The model binds it as written. The templates that read `VERSION` are not part of this model, so
  whether this is intended cannot be judged here.

## Model

| member | source | states |
|---|---|---|
| `BukkitTemplate.ApplyMainClass` | src/main/java/org/imanity/framework/intellij/modules/template/BukkitTemplate.java:27-103 | The template is `Bukkit Main Class.kt` when `kotlin` holds and `Bukkit Main Class.java` otherwise. The map is `MainClassProperties` in both cases, built by putting entries into a builder one at a time. |
| `BukkitTemplate.RenderDepend` | src/main/java/org/imanity/framework/intellij/modules/template/BukkitTemplate.java:37-62 | The two `StringBuilder` loops produce every hard entry and then every soft entry, in input order, joined by `", "`. A separator follows an entry unless it is the last of both lists. |
| `BukkitTemplate.DependHardStep` | src/main/java/org/imanity/framework/intellij/modules/template/BukkitTemplate.java:38-49 | One pass of the hard loop appends the entry, then `", "` when the entry is not the last hard one or soft dependencies follow. This takes the buffer from `i` to `i + 1` joined entries. |
| `BukkitTemplate.DependSoftStep` | src/main/java/org/imanity/framework/intellij/modules/template/BukkitTemplate.java:51-62 | One pass of the soft loop appends the entry, then `", "` unless it is the last soft one. This takes the buffer one joined entry further. |
| `BukkitTemplate.RenderQuoted` | src/main/java/org/imanity/framework/intellij/modules/template/BukkitTemplate.java:68-95 | The `LOAD_BEFORE` and `AUTHOR` loops produce each name in double quotes, in order, joined by `", "`, with no trailing separator. |
| `BukkitTemplate.MainClassKeys` | src/main/java/org/imanity/framework/intellij/modules/template/BukkitTemplate.java:29-97 | The map's keys in order: `PACKAGE`, `CLASS_NAME`, `NAME`, `VERSION`, `DESCRIPTION`, then `DEPEND`, `LOAD_BEFORE` and `AUTHOR` (each only when its list is non-empty), then `LOAD_ORDER`. |
| `BukkitTemplate.MainClassKeysDistinct` | src/main/java/org/imanity/framework/intellij/modules/template/BukkitTemplate.java:28-100 | No key is put twice, so building the map cannot fail on a duplicate key. |
| `BukkitTemplate.MainClassScalars` | src/main/java/org/imanity/framework/intellij/modules/template/BukkitTemplate.java:29-33 | `PACKAGE`, `CLASS_NAME`, `NAME`, `VERSION`, `DESCRIPTION` and `LOAD_ORDER` are always bound, each verbatim to its input. |
| `BukkitTemplate.MainClassDepend` | src/main/java/org/imanity/framework/intellij/modules/template/BukkitTemplate.java:36-65 | `DEPEND` is bound exactly when there is a hard or a soft dependency, to the joined entries. When both lists are empty the key is absent, not bound to `""`. |
| `BukkitTemplate.MainClassLoadBefore` | src/main/java/org/imanity/framework/intellij/modules/template/BukkitTemplate.java:68-80 | `LOAD_BEFORE` is bound exactly when the load-before list is non-empty, to the quoted, joined names. |
| `BukkitTemplate.MainClassAuthor` | src/main/java/org/imanity/framework/intellij/modules/template/BukkitTemplate.java:83-95 | `AUTHOR` is bound exactly when the author list is non-empty, to the quoted, joined names. |
| `BukkitTemplate.DependGroups` | src/main/java/org/imanity/framework/intellij/modules/template/BukkitTemplate.java:46-48 | Hard entries come before soft ones. A separator stands between the two groups exactly when both are non-empty. With one group empty, the value is the other group joined. |
| `BukkitTemplate.DependLength` | src/main/java/org/imanity/framework/intellij/modules/template/BukkitTemplate.java:38-62 | A non-empty `DEPEND` value is its entries plus exactly `|deps| + |softDeps| - 1` separators. |
| `BukkitTemplate.DependEnd` | src/main/java/org/imanity/framework/intellij/modules/template/BukkitTemplate.java:59-61 | A non-empty `DEPEND` value ends with `)` and never with `", "`. |
| `BukkitTemplate.DependStart` | src/main/java/org/imanity/framework/intellij/modules/template/BukkitTemplate.java:38-45 | A non-empty `DEPEND` value starts with its first entry: the first hard dependency's annotation, or the first soft one's when there is no hard dependency. |
| `BukkitTemplate.QuotedStart` | src/main/java/org/imanity/framework/intellij/modules/template/BukkitTemplate.java:70-73 | A non-empty quoted list starts with its first name in quotes. |
| `BukkitTemplate.QuotedLength` | src/main/java/org/imanity/framework/intellij/modules/template/BukkitTemplate.java:70-77 | A non-empty quoted list is its quoted names plus exactly `|names| - 1` separators. |
| `BukkitTemplate.QuotedEnd` | src/main/java/org/imanity/framework/intellij/modules/template/BukkitTemplate.java:74-76 | A non-empty quoted list ends with a double quote and never with `", "`. |
| `BukkitTemplate.EntryNamesVerbatim` | src/main/java/org/imanity/framework/intellij/modules/template/BukkitTemplate.java:41-45 | Each entry holds its name unchanged between a fixed prefix and suffix, so the name can be read back. Quotes inside a name are not escaped. |
| `BukkitTemplate.DependExample` | src/main/java/org/imanity/framework/intellij/modules/template/BukkitTemplate.java:51-58 | Hard dependencies `A`, `B` and soft dependency `C` give `@PluginDependency("A"), @PluginDependency("B"), @PluginDependency("C", soft = true)`. |
| `BukkitTemplate.QuotedExample` | src/main/java/org/imanity/framework/intellij/modules/template/BukkitTemplate.java:84-92 | Authors `Alice` and `Bob` give `"Alice", "Bob"`. |
| `BukkitTemplate.ApplySettingsGradle` | src/main/java/org/imanity/framework/intellij/modules/template/BukkitTemplate.java:113-117 | Uses the template `Bukkit settings.gradle`. The map has exactly the key `ARTIFACT_ID`, bound to the artifact id. |
| `BukkitTemplate.ApplySettingsGradleKts` | src/main/java/org/imanity/framework/intellij/modules/template/BukkitTemplate.java:119-123 | Uses the template `Bukkit settings.gradle.kts`. The map has exactly the key `ARTIFACT_ID`, bound to the artifact id. |
| `BukkitTemplate.ApplyBuildGradle` | src/main/java/org/imanity/framework/intellij/modules/template/BukkitTemplate.java:125-132 | Uses the template `Bukkit build.gradle`. The map has exactly the keys `GROUP_ID` and `VERSION`, bound to the group id and to the artifact id. |
| `BukkitTemplate.ApplyBuildGradleKts` | src/main/java/org/imanity/framework/intellij/modules/template/BukkitTemplate.java:134-141 | Uses the template `Bukkit build.gradle.kts`. The map has exactly the keys `GROUP_ID` and `VERSION`, bound to the group id and to the artifact id. |
| `Text.JoinSnoc` | src/main/java/org/imanity/framework/intellij/modules/template/BukkitTemplate.java:70-77 | Appending one more part to a non-empty joined list adds exactly one separator and then the part. This is the loop's step. |
| `Text.JoinConcat` | src/main/java/org/imanity/framework/intellij/modules/template/BukkitTemplate.java:46-48 | Two non-empty lists joined as one get exactly one separator where they meet. |
| `Text.JoinedUpToStep` | src/main/java/org/imanity/framework/intellij/modules/template/BukkitTemplate.java:38-48 | One iteration appends the entry and then a separator, unless the entry is the last of all. |
| `Placeholders.LookupAt` | src/main/java/org/imanity/framework/intellij/modules/template/BukkitTemplate.java:28-33 | In a map without duplicate keys, each key that was put finds the value it was put with. |
| `Placeholders.LookupPresent` | src/main/java/org/imanity/framework/intellij/modules/template/BukkitTemplate.java:64 | A key is bound exactly when it is among the map's keys. |
| `Placeholders.MapBuilder.Put` | src/main/java/org/imanity/framework/intellij/modules/template/BukkitTemplate.java:29-33 | A put appends one entry after all earlier ones and changes nothing else. |

## Left out

- `BaseTemplate.applyTemplate` is not part of this model. That covers finding the template asset,
  substituting the placeholders and its `IOException`. The operations return the template name and
  the map they would pass to it.
- `applyPom` and `readMavenVersions` are left out. They read a classpath resource and parse it with
  Gson: I/O and a foreign library.
- `applyGradleProperties` is left out. It only delegates to an overload of `applyTemplate` that is
  not part of this model.
- The IntelliJ `Project` parameter, the project-system accessors and the `INSTANCE` singleton are
  left out. They are IDE integration; the metadata is a plain value here.
- Java `null` values are left out: null strings or arrays, and Guava's `NullPointerException` on a
  null key or value. Dafny strings and sequences are never null.
