# Gradle Enterprise Maven extension recipe, modelled in Dafny

This project models the decision logic of the OpenRewrite recipe
`AddGradleEnterpriseMavenExtension`. The recipe adds the Gradle Enterprise Maven extension to a
Maven project. It runs in three phases:

1. **Scan.** Every source file is visited once. Its path, with separators normalised to `/`, is
   compared with `pom.xml`, `.mvn/extensions.xml` and `.mvn/gradle-enterprise.xml`. The
   accumulator's four booleans are set from what is found. For `pom.xml` the CRLF flag of the
   file's general format style is also copied, or `false` when the file has no such style.
2. **Generate.** Nothing is created when there is no `pom.xml` or when
   `.mvn/gradle-enterprise.xml` already exists. Otherwise the recipe creates
   `.mvn/gradle-enterprise.xml`. It also creates an empty `.mvn/extensions.xml` when the project
   has none.
3. **Edit.** The visitor adds one `extension` entry to the root of `.mvn/extensions.xml`.
   The entry has group id `com.gradle`, artifact id `gradle-enterprise-maven-extension` and,
   when a version is set, a version. A separate search can tell whether the document already
   declares the extension. The visitor never calls it.

Modules, one per component:

- `Wrappers` (`wrappers.dfy`): `Option`.
- `Paths` (`paths.dfy`): separator normalisation, the three recognised paths and `Classify`.
- `Xml` (`xml.dfy`): a tag tree `Tag(name, value, children)` and first-child lookup.
- `Scanner` (`scanner.dfy`): the accumulator. There is a class `Accumulator` with four fields
  and a `Scan` method that updates them in place. The same step on values is `Observe`, and
  `ScanAll` folds `Observe` over a sequence of files. The lemmas are about the fold.
- `Configuration` (`configuration.dfy`): the options, the configuration records built from
  them, and the newline choice. It also holds the element tree the writer produces when null
  fields are excluded, and a strict reader that recovers the configuration from that tree.
- `Generation` (`generation.dfy`): `Generate`, which builds the list of new files step by step.
- `Editing` (`editing.dfy`): the detection search, a recursive visitor method with a loop over
  the children. Also the entry template, root insertion, the edit visitor, and the count of
  entries each edit adds.
- `Pipeline` (`pipeline.dfy`): the phases combined. It loops `Scan` over all files and then
  calls `Generate`.

## Model

| member | source | states |
|---|---|---|
| `Paths.ToUnix` | rewrite-maven/src/main/java/org/openrewrite/maven/AddGradleEnterpriseMavenExtension.java:188 | Normalising keeps the length, turns each backslash into `/`, keeps every other character, and leaves no backslash |
| `Paths.EqualIgnoringSeparators` | rewrite-maven/src/main/java/org/openrewrite/maven/AddGradleEnterpriseMavenExtension.java:229 | Two paths are equal up to separators iff they have the same length and agree at every position, a backslash counting as `/` |
| `Paths.Classify` | rewrite-maven/src/main/java/org/openrewrite/maven/AddGradleEnterpriseMavenExtension.java:188-203 | A path is `pom.xml`, `.mvn/extensions.xml` or `.mvn/gradle-enterprise.xml` exactly when its normalised form equals that path, and Other exactly when it equals none of them |
| `Paths.ClassifyMeansEqualIgnoringSeparators` | rewrite-maven/src/main/java/org/openrewrite/maven/AddGradleEnterpriseMavenExtension.java:188-232 | A path has one of the three recognised kinds exactly when it equals that kind's path up to separators; the scanner's switch and the visitor's path test therefore agree |
| `Scanner.Accumulator.constructor` | rewrite-maven/src/main/java/org/openrewrite/maven/AddGradleEnterpriseMavenExtension.java:166-177 | A new accumulator has all four facts false |
| `Scanner.Accumulator.Scan` | rewrite-maven/src/main/java/org/openrewrite/maven/AddGradleEnterpriseMavenExtension.java:188-203 | `pom.xml` sets the Maven flag and sets the CRLF flag to the style's value, or false without a style; each `.mvn` file sets only its own flag; any other path changes nothing; no existence flag is ever cleared |
| `Scanner.Observe` | rewrite-maven/src/main/java/org/openrewrite/maven/AddGradleEnterpriseMavenExtension.java:188-203 | One visit on values: `pom.xml` sets the Maven flag and takes the CRLF flag from its style, or false without one. Each `.mvn` file sets only its own flag, and any other file changes nothing. `Accumulator.Scan` is proved to have exactly this effect |
| `Scanner.ScanAll` | rewrite-maven/src/main/java/org/openrewrite/maven/AddGradleEnterpriseMavenExtension.java:180-206 | Visiting every file in order never clears an existence flag, and files of no recognised kind leave the accumulator unchanged; the lemmas below characterise the result completely |
| `Scanner.ObserveMonotone` | rewrite-maven/src/main/java/org/openrewrite/maven/AddGradleEnterpriseMavenExtension.java:189-200 | One visit never clears an existence flag, and it sets the flag for the file's own kind |
| `Scanner.ObserveKeepsNewLines` | rewrite-maven/src/main/java/org/openrewrite/maven/AddGradleEnterpriseMavenExtension.java:195-202 | Visiting any file other than `pom.xml` leaves the CRLF flag alone |
| `Scanner.ScanAllRecorded` | rewrite-maven/src/main/java/org/openrewrite/maven/AddGradleEnterpriseMavenExtension.java:189-203 | After a scan, a kind's flag is set iff it was set before or some scanned file has that kind |
| `Scanner.ScanFlagsOrderIndependent` | rewrite-maven/src/main/java/org/openrewrite/maven/AddGradleEnterpriseMavenExtension.java:189-200 | Two scans of the same files, in any order and with any repetition, give the same three existence flags |
| `Scanner.ScanWithoutPomKeepsNewLines` | rewrite-maven/src/main/java/org/openrewrite/maven/AddGradleEnterpriseMavenExtension.java:190-194 | When no `pom.xml` is scanned, the CRLF flag keeps its initial value |
| `Scanner.ScanTakesNewLinesFromLastPom` | rewrite-maven/src/main/java/org/openrewrite/maven/AddGradleEnterpriseMavenExtension.java:190-194 | The CRLF flag after a scan is the style flag of the last `pom.xml` scanned, or false when that file has no style |
| `Scanner.ScanOrderIndependent` | rewrite-maven/src/main/java/org/openrewrite/maven/AddGradleEnterpriseMavenExtension.java:189-203 | When each scan sees at most one `pom.xml`, the whole accumulator depends only on which files were scanned |
| `Configuration.XmlName` | rewrite-maven/src/main/java/org/openrewrite/maven/AddGradleEnterpriseMavenExtension.java:142-152 | Always, Failure and Demand map to `ALWAYS`, `ON_FAILURE` and `ON_DEMAND`, each name belonging to exactly one criterion |
| `Configuration.BuildScanConfigurationOf` | rewrite-maven/src/main/java/org/openrewrite/maven/AddGradleEnterpriseMavenExtension.java:282-290 | The build-scan record is absent iff upload, publish criteria and capture are all unset; when present it carries the upload option as given; `publish` is present iff a criterion is set and holds that criterion's name; `capture` is present iff goal-input capture is set and holds its value |
| `Configuration.ConfigurationOf` | rewrite-maven/src/main/java/org/openrewrite/maven/AddGradleEnterpriseMavenExtension.java:267-276 | The configuration always has the server URL; `allowUntrusted` is passed through unset when it is unset, never defaulted; the build-scan part is the record above |
| `Configuration.NewLine` | rewrite-maven/src/main/java/org/openrewrite/maven/AddGradleEnterpriseMavenExtension.java:274 | The separator is `"\r\n"` iff the project uses CRLF, and `"\n"` iff it does not |
| `Configuration.ServerTree` | rewrite-maven/src/main/java/org/openrewrite/maven/AddGradleEnterpriseMavenExtension.java:245-273 | The written `server` element always holds the URL, and holds `allowUntrusted` with its value only when that option is set |
| `Configuration.CaptureTree` | rewrite-maven/src/main/java/org/openrewrite/maven/AddGradleEnterpriseMavenExtension.java:262-273 | The written `capture` element holds the goal-input flag |
| `Configuration.BuildScanTree` | rewrite-maven/src/main/java/org/openrewrite/maven/AddGradleEnterpriseMavenExtension.java:252-273 | In the written `buildScan` element, `backgroundBuildScanUpload`, `publish` and `capture` each appear, holding their values, exactly when the field is set |
| `Configuration.ConfigurationTree` | rewrite-maven/src/main/java/org/openrewrite/maven/AddGradleEnterpriseMavenExtension.java:237-276 | The written tree is rooted at `gradleEnterprise`; it always holds the `server` element and holds `buildScan` exactly when there is a build-scan record. `ConfigurationRoundTrip` proves the tree determines the configuration |
| `Configuration.ConfigurationRoundTrip` | rewrite-maven/src/main/java/org/openrewrite/maven/AddGradleEnterpriseMavenExtension.java:237-276 | Dropping absent fields from the written element tree loses nothing: every configuration can be read back from its tree |
| `Configuration.WrittenConfigurationShape` | rewrite-maven/src/main/java/org/openrewrite/maven/AddGradleEnterpriseMavenExtension.java:269-290 | The written tree has a `server` element with the URL. It has `allowUntrusted` iff that option is set, and `buildScan` iff one of its three options is set. Inside `buildScan`, `capture` appears iff capture is set, `backgroundBuildScanUpload` iff upload is set, and `publish` appears iff a criterion is set, holding its name |
| `Generation.GradleEnterpriseConfigurationXml` | rewrite-maven/src/main/java/org/openrewrite/maven/AddGradleEnterpriseMavenExtension.java:267-280 | The content of `.mvn/gradle-enterprise.xml` is a tree from which the options' configuration reads back, with CRLF separators iff the project uses CRLF |
| `Generation.EmptyExtensionsRoot` | rewrite-maven/src/main/java/org/openrewrite/maven/AddGradleEnterpriseMavenExtension.java:62-64 | The new `.mvn/extensions.xml` parses to an `extensions` root with no value and no entries; `Generate` places exactly this root in the second generated file |
| `Generation.Generate` | rewrite-maven/src/main/java/org/openrewrite/maven/AddGradleEnterpriseMavenExtension.java:209-222 | The result is empty iff there is no `pom.xml` or `.mvn/gradle-enterprise.xml` exists. Otherwise `.mvn/gradle-enterprise.xml` comes first, and an empty `.mvn/extensions.xml` is the second and last file iff none exists. The length is at most 2, and no generated path has a flag set |
| `Editing.VisitTag` | rewrite-maven/src/main/java/org/openrewrite/maven/AddGradleEnterpriseMavenExtension.java:304-318 | The visitor returns true iff the shared flag was already set or some tag in the subtree is at `/extensions/extension/artifactId` and holds the artifact id |
| `Editing.FindExistingEnterpriseExtension` | rewrite-maven/src/main/java/org/openrewrite/maven/AddGradleEnterpriseMavenExtension.java:302-320 | True iff the root is `extensions` and has an `extension` child whose `artifactId` child holds exactly `gradle-enterprise-maven-extension` |
| `Editing.DetectionMeansDeclared` | rewrite-maven/src/main/java/org/openrewrite/maven/AddGradleEnterpriseMavenExtension.java:303-316 | A whole-tree search for the three-step absolute path finds a match iff the document declares the extension; matches at other depths or paths cannot count |
| `Editing.DetectionExamples` | rewrite-maven/src/main/java/org/openrewrite/maven/AddGradleEnterpriseMavenExtension.java:303-316 | A document with the entry is detected. The artifact id directly under the root is not detected, and neither is a different artifact id in the right place |
| `Editing.EnterpriseTag` | rewrite-maven/src/main/java/org/openrewrite/maven/AddGradleEnterpriseMavenExtension.java:67-77 | The inserted tag is an `extension` entry with group id `com.gradle` and the fixed artifact id. It has a `version` child iff a version is set, holding that text |
| `Editing.AddEnterpriseExtension` | rewrite-maven/src/main/java/org/openrewrite/maven/AddGradleEnterpriseMavenExtension.java:326-333 | The root keeps its name, value and existing children in order, and gains the entry as one more child; the path is unchanged |
| `Editing.VisitDocument` | rewrite-maven/src/main/java/org/openrewrite/maven/AddGradleEnterpriseMavenExtension.java:225-235 | The document is unchanged iff its path is not `.mvn/extensions.xml` up to separators; otherwise the entry is added, whatever the document already holds |
| `Editing.EditedIsDetected` | rewrite-maven/src/main/java/org/openrewrite/maven/AddGradleEnterpriseMavenExtension.java:228-320 | After the edit, the document declares the extension iff its root is `extensions` |
| `Editing.EditAddsOneEntry` | rewrite-maven/src/main/java/org/openrewrite/maven/AddGradleEnterpriseMavenExtension.java:228-232 | Each edit raises the number of enterprise entries by exactly one |
| `Editing.EditTwiceAddsTwoEntries` | rewrite-maven/src/main/java/org/openrewrite/maven/AddGradleEnterpriseMavenExtension.java:228-325 | The edit is not idempotent: a second edit changes the document again and leaves two more entries than the original had |
| `Editing.EditIgnoresExistingEntry` | rewrite-maven/src/main/java/org/openrewrite/maven/AddGradleEnterpriseMavenExtension.java:322-332 | A document that already declares the extension has at least two entries after the edit, since nothing checks first |
| `Pipeline.UnrecordedPathIsNew` | rewrite-maven/src/main/java/org/openrewrite/maven/AddGradleEnterpriseMavenExtension.java:189-217 | A recognised path whose flag the scan left unset matches no scanned file up to separators |
| `Pipeline.ScanThenGenerate` | rewrite-maven/src/main/java/org/openrewrite/maven/AddGradleEnterpriseMavenExtension.java:179-235 | Scanning every file and then generating creates files iff a `pom.xml` and no `.mvn/gradle-enterprise.xml` was scanned. `.mvn/extensions.xml` is among them iff none was scanned. No file is created at the path of a scanned file. The edit then leaves the generated `.mvn/gradle-enterprise.xml` unchanged and gives the new `.mvn/extensions.xml` the entry as its only child |
| `Pipeline.NewExtensionsXmlGetsEntry` | rewrite-maven/src/main/java/org/openrewrite/maven/AddGradleEnterpriseMavenExtension.java:62-232 | The generated `.mvn/extensions.xml` file, taken as a document and edited, holds the entry as its only child and declares the extension |
| `Pipeline.GeneratedConfigurationNotEdited` | rewrite-maven/src/main/java/org/openrewrite/maven/AddGradleEnterpriseMavenExtension.java:215-230 | The edit visitor returns a generated `.mvn/gradle-enterprise.xml` unchanged, since its path is not `.mvn/extensions.xml` |

## Behaviour of the code worth knowing

The model follows the code in each case below.

- The CRLF flag comes from the last `pom.xml` visited, because each visit overwrites it. A "first
  signal wins" rule would differ. The two differ only if the same normalised path is visited
  twice (`Scanner.ScanTakesNewLinesFromLastPom`).
- The empty `.mvn/extensions.xml` is written from a fixed text with LF line breaks. It does not
  follow the project's CRLF setting. Only `.mvn/gradle-enterprise.xml` uses the detected newline.
- The edit is not gated on detection. The recipe's description (lines 161-163) says the
  extension is added "if not already present". But `getVisitor` calls `addEnterpriseExtension`
  without calling `findExistingEnterpriseExtension`. Re-running the recipe therefore adds another
  entry, so the edit is not idempotent (`Editing.EditTwiceAddsTwoEntries`).
- The visitor does not read the accumulator. It edits `.mvn/extensions.xml` even in a project
  without `pom.xml`.
- The code has no "malformed container" outcome. The entry is added under whatever the root tag
  is (`Editing.EditedIsDetected`).

## Left out

- `Paths.ToUnix`: the source of `separatorsToUnix` and `equalIgnoringSeparators` is not shown. `ToUnix` and `EqualIgnoringSeparators` model them on the assumption that they replace `\` by `/` and compare the results.
- Exact bytes of `.mvn/gradle-enterprise.xml`: the object mapper's serialization and pretty printer are a foreign serializer. The model keeps the element tree with absent fields dropped, plus the newline string. The XML declaration, namespaces and indentation are not modelled.
- The serialization failure path (`JsonProcessingException` rethrown as `RuntimeException`) is a library failure and is not modelled.
- `createNewXml`: parsing the generated text is an external parser. The empty `.mvn/extensions.xml` is modelled by its parsed root, an `extensions` tag without children (`Generation.EmptyExtensionsRoot`).
- `Editing.AddEnterpriseExtension`: the placement and formatting done by the library's add-to-tag visitor are assumed, not modelled. The entry is taken to become the root's last child, other children kept in order. Whitespace and comments are not modelled, and neither is the handling of a self-closing root.
- `Editing.EnterpriseTag`: the template is modelled as a tag tree, not as text formatted with `%s`. A version containing XML markup, which would change the parsed template, is not modelled.
- XPath matching beyond the one fixed absolute path, and tag values other than one optional text: external library.
- `GRADLE_ENTERPRISE_XML_FORMAT`: an unused constant.
- Option metadata, display name and description, annotations and the execution context: framework plumbing. Trees that are not source files, which the scanner returns unchanged, are not modelled; the scanner sees only source files.
- The framework's orchestration is modelled only by `Pipeline.ScanThenGenerate`. It scans a given sequence of files in a loop, generates, and states what the edit visitor does to each generated file. The edit is not applied to the whole project there; `Editing.VisitDocument` gives its effect on any one document.
