# Directed DAST build step, modelled in Dafny

This project models the core of the WhiteHat Directed DAST Jenkins plugin:
the build step `WhiteHatIDDBuilder` and the types it works with. Before it
runs the scanner, the step prepares a per-job JSON settings document.

- It seeds the document from the plugin's `settings.default.json` the first
  time a job runs.
- It reads the document, reconciles the user's host-mapping rules and
  severity thresholds into it, and saves it back.
- It resolves the configured capture-traffic (HAR) source. A directory
  expands to the `.har` paths of a walk.
- It runs the scanner `$DIRECTED_DAST_HOME/target/directed-dast-common` once
  per input, stopping at the first failure.

Files and modules:

- `common.dfy` (`Common`): Java `null` as `Option`, the step's exceptions as `Failure`.
- `severity.dfy` (`Severities`): the `Severity` enum, its `level` strings,
  `toUpperCase` and the builder's validity test.
- `host_mapping.dfy` (`HostMappings`): `WhiteHatIDDHostMapping` as the
  immutable datatype `HostMappingRule`, the stored entry `HostMapping`,
  `StringUtils.isBlank`, `LinkedHashMap.put` as `Put`, the reconciled list
  `Reconciled` and its properties.
- `configuration.dfy` (`Configurations`): `Configuration` as a class with
  its twelve fields, getters and setters, and the `Settings` value it snapshots to.
- `workspace.dfy` (`Workspace`): paths, the filesystem as a map, the
  settings file name, seeding, reading a document, filtering a walk.
- `builder.dfy` (`Builder`): the class `WhiteHatIDDBuilder` with its
  setters and getters, reconciliation, input resolution, `invokeIDD` and `perform`.

The rule constructor stores its arguments as given and does no validation.
It has no setters, and its getters are the datatype's destructors.
`Configuration`'s and the builder's getters are functions, so they have no
side effects. Each setter's contract states what the matching getter then
returns, and that every other field keeps its value.

Inputs the model takes as values:

- the build environment, a map of variables;
- the workspace path, `None` when Jenkins has none;
- the plugin's resource directory, `""` when the plugin is not found;
- the filesystem, a map from path string to node;
- the results of `Files.walk`, a map from directory to the path strings in walk order;
- the scanner, a map from command line to exit code.

A directory missing from the walk map stands for a walk that fails with an
IOException. A command line missing from the scanner map stands for a
launch that fails with an IOException.

Behaviour of the step worth stating:

- The first failing scan in directory mode throws a `RuntimeException` out
  of `forEach`. No later file is scanned.
- A blank `DIRECTED_DAST_HOME` ends the step with an `InterruptedException`.
  It is checked after the workspace check.
- The save writes the settings file in place.
- A missing template surfaces as the IOException of the copy.
- `updateHostMappingSettings` copies the builder's severity FIELDS into the
  document. So a `null` field (an instance restored from an older
  configuration) is stored as `null`, not as the getters' default.
- An unset `JOB_NAME` makes the file `idd-settings-jenkins-job-null.json`.
- A walked directory whose own name ends in `.har` is passed to the scanner
  like a file.

## Model

| member | source | states |
|---|---|---|
| Severities.Ordinal | src/main/java/com/whitehatsec/idd/jenkins/plugin/Severity.java:3-9 | each constant sits at exactly one position of `values()`, in declaration order CRITICAL, HIGH, MEDIUM, LOW, NOTE |
| Severities.Name | src/main/java/com/whitehatsec/idd/jenkins/plugin/Severity.java:4-8 | the Java name of each constant: CRITICAL, HIGH, MEDIUM, LOW, NOTE |
| Severities.Level | src/main/java/com/whitehatsec/idd/jenkins/plugin/Severity.java:4-14 | the `level` string each constant is constructed with: Critical, High, Medium, Low, Note |
| Severities.ValuesEnumerateAll | src/main/java/com/whitehatsec/idd/jenkins/plugin/Severity.java:3-9 | `values()` has five entries, contains every constant and repeats none |
| Severities.LevelsDistinct | src/main/java/com/whitehatsec/idd/jenkins/plugin/Severity.java:4-8 | distinct constants have distinct `level` strings |
| Severities.LevelUpperIsName | src/main/java/com/whitehatsec/idd/jenkins/plugin/Severity.java:4-14 | each constant's `level`, upper-cased, is the constant's name |
| Severities.LevelIsValid | src/main/java/com/whitehatsec/idd/jenkins/plugin/Severity.java:4-14 | every `level` passes the builder's validity test and names its own constant |
| Severities.ValueOf | src/main/java/com/whitehatsec/idd/jenkins/plugin/WhiteHatIDDBuilder.java:86 | a constant is found exactly when the string equals that constant's name; otherwise no constant has that name |
| Severities.ToUpper | src/main/java/com/whitehatsec/idd/jenkins/plugin/WhiteHatIDDBuilder.java:86 | upper-casing never shortens a string and at most triples it; where no character expands (ß and the Latin ligatures do) it maps character for character |
| Severities.IsValidSeverity | src/main/java/com/whitehatsec/idd/jenkins/plugin/WhiteHatIDDBuilder.java:84-92 | the setters' test: the upper-cased string is the name of a constant |
| Severities.UpperForm | src/main/java/com/whitehatsec/idd/jenkins/plugin/WhiteHatIDDBuilder.java:86 | each character upper-cases to one, two or three characters |
| Severities.ToUpperAppend | src/main/java/com/whitehatsec/idd/jenkins/plugin/WhiteHatIDDBuilder.java:86 | upper-casing a concatenation upper-cases each part |
| Severities.SharpSExpands | src/main/java/com/whitehatsec/idd/jenkins/plugin/WhiteHatIDDBuilder.java:86 | "ß" upper-cases to "SS", so the result can be longer than the argument |
| Severities.UpperLetters | src/main/java/com/whitehatsec/idd/jenkins/plugin/WhiteHatIDDBuilder.java:86 | a string of ASCII letters upper-cases letter by letter |
| Severities.SeverityOrDefault | src/main/java/com/whitehatsec/idd/jenkins/plugin/WhiteHatIDDBuilder.java:84-92 | the string is kept exactly when it is valid, otherwise the fallback's level is stored; the stored value is always valid |
| HostMappings.Put | src/main/java/com/whitehatsec/idd/jenkins/plugin/WhiteHatIDDBuilder.java:172 | `put` keeps keys unique; an existing key keeps its slot and takes the new value with every other entry unchanged; a new key is appended |
| HostMappings.IsBlank | src/main/java/com/whitehatsec/idd/jenkins/plugin/WhiteHatIDDBuilder.java:165 | `StringUtils.isBlank`: `null`, empty, or only whitespace characters |
| HostMappings.ToEntry | src/main/java/com/whitehatsec/idd/jenkins/plugin/WhiteHatIDDHostMapping.java:20-37 | an entry carries the flag and the two hosts that the rule's getters return, which are the constructor's arguments unchanged; a kept rule gives an entry with no blank host |
| HostMappings.Eligible | src/main/java/com/whitehatsec/idd/jenkins/plugin/WhiteHatIDDBuilder.java:165-167 | a rule is kept exactly when neither its from-host nor its to-host is blank |
| HostMappings.PresentRules | src/main/java/com/whitehatsec/idd/jenkins/plugin/WhiteHatIDDBuilder.java:164-165 | the rules are iterated in order exactly when no element of the list is `null`; a `null` element stops the loop with a NullPointerException |
| HostMappings.Reconciled | src/main/java/com/whitehatsec/idd/jenkins/plugin/WhiteHatIDDBuilder.java:161-174 | the reconciled `hosts` list holds at most one entry per from-host |
| HostMappings.ReconciledEntriesFromKeptRules | src/main/java/com/whitehatsec/idd/jenkins/plugin/WhiteHatIDDBuilder.java:164-171 | every entry is built from a rule whose hosts are both non-blank, so no entry has a blank host |
| HostMappings.ReconciledIgnoresBlankRule | src/main/java/com/whitehatsec/idd/jenkins/plugin/WhiteHatIDDBuilder.java:164-167 | removing a rule with a blank from- or to-host leaves the reconciled list unchanged |
| HostMappings.ReconciledKeys | src/main/java/com/whitehatsec/idd/jenkins/plugin/WhiteHatIDDBuilder.java:162-173 | the entries' from-hosts are exactly the from-hosts of the kept rules |
| HostMappings.ReconciledLastWriteWins | src/main/java/com/whitehatsec/idd/jenkins/plugin/WhiteHatIDDBuilder.java:168-172 | the entry for a from-host carries the enable flag and to-host of the LAST kept rule for it |
| HostMappings.ReconciledFirstPosition | src/main/java/com/whitehatsec/idd/jenkins/plugin/WhiteHatIDDBuilder.java:162-174 | entries are ordered by the position of the FIRST kept rule for their from-host |
| HostMappings.FirstRuleFor | src/main/java/com/whitehatsec/idd/jenkins/plugin/WhiteHatIDDBuilder.java:164-172 | the first index of a kept rule for a from-host, with no kept rule for it before that index |
| HostMappings.DuplicateFromHostKeepsLastValue | src/main/java/com/whitehatsec/idd/jenkins/plugin/WhiteHatIDDBuilder.java:161-174 | rules (true, a, b) then (false, a, c) reconcile to the single entry (false, a, c) |
| Configurations.ReconcileIdempotent | src/main/java/com/whitehatsec/idd/jenkins/plugin/WhiteHatIDDBuilder.java:174-179 | reconciling ignores the previous `hosts` list, so reconciling twice with the same inputs equals reconciling once |
| Configurations.ReconcileSettings | src/main/java/com/whitehatsec/idd/jenkins/plugin/WhiteHatIDDBuilder.java:174-177 | the document with `hosts` replaced by the reconciled rules and the two severity fields replaced; every other field kept |
| Configurations.Configuration.FromSettings | src/main/java/com/whitehatsec/idd/jenkins/plugin/WhiteHatIDDBuilder.java:145-159 | the object read from a settings file holds exactly the parsed document |
| Configurations.Configuration.IsApplyDebugHeader | src/main/java/com/whitehatsec/idd/jenkins/plugin/Configuration.java:19-21 | returns the field as stored |
| Configurations.Configuration.GetExcludedUrls | src/main/java/com/whitehatsec/idd/jenkins/plugin/Configuration.java:27-29 | returns the field as stored, `null` included |
| Configurations.Configuration.GetExcludedAttackUrls | src/main/java/com/whitehatsec/idd/jenkins/plugin/Configuration.java:35-37 | returns the field as stored, `null` included |
| Configurations.Configuration.GetExcludedFileExtensions | src/main/java/com/whitehatsec/idd/jenkins/plugin/Configuration.java:43-45 | returns the field as stored, `null` included |
| Configurations.Configuration.GetExcludedParameters | src/main/java/com/whitehatsec/idd/jenkins/plugin/Configuration.java:51-53 | returns the field as stored, `null` included |
| Configurations.Configuration.GetAttackModules | src/main/java/com/whitehatsec/idd/jenkins/plugin/Configuration.java:59-61 | returns the field as stored, `null` included |
| Configurations.Configuration.IsDisablePassiveModules | src/main/java/com/whitehatsec/idd/jenkins/plugin/Configuration.java:67-69 | returns the field as stored |
| Configurations.Configuration.GetAllowedHosts | src/main/java/com/whitehatsec/idd/jenkins/plugin/Configuration.java:75-77 | returns the field as stored, `null` included |
| Configurations.Configuration.IsIncludeEvidence | src/main/java/com/whitehatsec/idd/jenkins/plugin/Configuration.java:83-85 | returns the field as stored |
| Configurations.Configuration.GetFilterOnSeverity | src/main/java/com/whitehatsec/idd/jenkins/plugin/Configuration.java:91-93 | returns the field as stored, `null` included |
| Configurations.Configuration.GetFailOnSeverity | src/main/java/com/whitehatsec/idd/jenkins/plugin/Configuration.java:99-101 | returns the field as stored, `null` included |
| Configurations.Configuration.GetHosts | src/main/java/com/whitehatsec/idd/jenkins/plugin/Configuration.java:107-109 | returns the field as stored, `null` included |
| Configurations.Configuration.SetApplyDebugHeader | src/main/java/com/whitehatsec/idd/jenkins/plugin/Configuration.java:19-25 | the getter then returns the value set; no other field changes |
| Configurations.Configuration.SetExcludedUrls | src/main/java/com/whitehatsec/idd/jenkins/plugin/Configuration.java:27-33 | the getter then returns the value set; no other field changes |
| Configurations.Configuration.SetExcludedAttackUrls | src/main/java/com/whitehatsec/idd/jenkins/plugin/Configuration.java:35-41 | the getter then returns the value set; no other field changes |
| Configurations.Configuration.SetExcludedFileExtensions | src/main/java/com/whitehatsec/idd/jenkins/plugin/Configuration.java:43-49 | the getter then returns the value set; no other field changes |
| Configurations.Configuration.SetExcludedParameters | src/main/java/com/whitehatsec/idd/jenkins/plugin/Configuration.java:51-57 | the getter then returns the value set; no other field changes |
| Configurations.Configuration.SetAttackModules | src/main/java/com/whitehatsec/idd/jenkins/plugin/Configuration.java:59-65 | the getter then returns the value set; no other field changes |
| Configurations.Configuration.SetDisablePassiveModules | src/main/java/com/whitehatsec/idd/jenkins/plugin/Configuration.java:67-73 | the getter then returns the value set; no other field changes |
| Configurations.Configuration.SetAllowedHosts | src/main/java/com/whitehatsec/idd/jenkins/plugin/Configuration.java:75-81 | the getter then returns the value set; no other field changes |
| Configurations.Configuration.SetIncludeEvidence | src/main/java/com/whitehatsec/idd/jenkins/plugin/Configuration.java:83-89 | the getter then returns the value set; no other field changes |
| Configurations.Configuration.SetFilterOnSeverity | src/main/java/com/whitehatsec/idd/jenkins/plugin/Configuration.java:91-97 | any string, valid severity or not, is stored and read back; no other field changes |
| Configurations.Configuration.SetFailOnSeverity | src/main/java/com/whitehatsec/idd/jenkins/plugin/Configuration.java:99-105 | any string, valid severity or not, is stored and read back; no other field changes |
| Configurations.Configuration.SetHosts | src/main/java/com/whitehatsec/idd/jenkins/plugin/Configuration.java:107-113 | the list set is the list `getHosts` returns; no other field changes |
| Workspace.Join | src/main/java/com/whitehatsec/idd/jenkins/plugin/WhiteHatIDDBuilder.java:134 | a workspace child path ends with the child name and is absolute when the parent is absolute or empty |
| Workspace.SettingsFileName | src/main/java/com/whitehatsec/idd/jenkins/plugin/WhiteHatIDDBuilder.java:115 | the file name is `idd-settings-jenkins-job-` + job name + `.json` |
| Workspace.SettingsFileNameInjective | src/main/java/com/whitehatsec/idd/jenkins/plugin/WhiteHatIDDBuilder.java:115 | different job names give different settings files |
| Workspace.TemplatePath | src/main/java/com/whitehatsec/idd/jenkins/plugin/WhiteHatIDDBuilder.java:108 | the template is `settings.default.json` inside the plugin's resource directory |
| Workspace.SeedSettings | src/main/java/com/whitehatsec/idd/jenkins/plugin/WhiteHatIDDBuilder.java:115-121 | an existing non-empty settings file is left untouched; otherwise the template is copied over it, which fails when the template is not a file; no other path in the model changes (parent directories the copy creates are left out) |
| Workspace.SeedSettingsIdempotent | src/main/java/com/whitehatsec/idd/jenkins/plugin/WhiteHatIDDBuilder.java:116-121 | seeding a second time changes nothing |
| Workspace.ReadSettings | src/main/java/com/whitehatsec/idd/jenkins/plugin/WhiteHatIDDBuilder.java:145-159 | reading succeeds exactly on a regular file that parses; a file holding a document yields exactly that document, and `null` comes back exactly for an empty file or a `null` document |
| Workspace.HarFiles | src/main/java/com/whitehatsec/idd/jenkins/plugin/WhiteHatIDDBuilder.java:244-246 | the result holds exactly the walked paths ending in `.har` |
| Workspace.HarFilesKeepsOrder | src/main/java/com/whitehatsec/idd/jenkins/plugin/WhiteHatIDDBuilder.java:244-247 | filtering distributes over concatenation, so capture files keep their walk order |
| Builder.CommandLineDeterminesInput | src/main/java/com/whitehatsec/idd/jenkins/plugin/WhiteHatIDDBuilder.java:200 | with the installation and settings fixed, different inputs get different command lines |
| Builder.CommandLine | src/main/java/com/whitehatsec/idd/jenkins/plugin/WhiteHatIDDBuilder.java:200 | `HOME/target/directed-dast-common -settings-file SETTINGS INPUT` |
| Builder.JobNameText | src/main/java/com/whitehatsec/idd/jenkins/plugin/WhiteHatIDDBuilder.java:115 | `JOB_NAME` as concatenation renders it, `null` when unset |
| Builder.SettingsPath | src/main/java/com/whitehatsec/idd/jenkins/plugin/WhiteHatIDDBuilder.java:115 | the job's settings file is its per-job name inside the workspace |
| Builder.InvocationFailure | src/main/java/com/whitehatsec/idd/jenkins/plugin/WhiteHatIDDBuilder.java:201-206 | a run fails exactly when its exit code is not 0; AbortException exactly on a non-zero exit |
| Builder.InvokeIDD | src/main/java/com/whitehatsec/idd/jenkins/plugin/WhiteHatIDDBuilder.java:196-210 | the run uses `HOME/target/directed-dast-common -settings-file SETTINGS INPUT` and fails exactly when the exit code is not 0 |
| Builder.InvokeEach | src/main/java/com/whitehatsec/idd/jenkins/plugin/WhiteHatIDDBuilder.java:247-261 | the inputs are scanned in order; the loop stops after the first failing run; no failure means every input was scanned and exited 0 |
| Builder.ScannerOutcomeDetermined | src/main/java/com/whitehatsec/idd/jenkins/plugin/WhiteHatIDDBuilder.java:238-268 | the scanner phase has one outcome per inputs and scanner: the runs, the FAILURE mark and the exception are determined |
| Builder.SeededDocumentKeepsExisting | src/main/java/com/whitehatsec/idd/jenkins/plugin/WhiteHatIDDBuilder.java:115-159 | a settings file that already holds a document is read as it is, whatever the template holds |
| Builder.SeededDocumentFromTemplate | src/main/java/com/whitehatsec/idd/jenkins/plugin/WhiteHatIDDBuilder.java:115-159 | a missing or empty settings file is read as the template's document |
| Builder.FailedSetupSavesNothing | src/main/java/com/whitehatsec/idd/jenkins/plugin/WhiteHatIDDBuilder.java:225-234 | a settings phase that stops early has taken no save step |
| Builder.Inputs | src/main/java/com/whitehatsec/idd/jenkins/plugin/WhiteHatIDDBuilder.java:239-268 | a directory stands for its walked `.har` paths in walk order (the walk failing is the only error); anything else, existing or not, stands for itself |
| Builder.WhiteHatIDDBuilder.constructor | src/main/java/com/whitehatsec/idd/jenkins/plugin/WhiteHatIDDBuilder.java:62-66 | a new builder holds the source, an empty rule list and the default levels `High` and `Note` |
| Builder.WhiteHatIDDBuilder.GetHarSource | src/main/java/com/whitehatsec/idd/jenkins/plugin/WhiteHatIDDBuilder.java:68-70 | returns the source as stored |
| Builder.WhiteHatIDDBuilder.GetHostMapping | src/main/java/com/whitehatsec/idd/jenkins/plugin/WhiteHatIDDBuilder.java:80-82 | the rule list, or an empty list when the field is `null` |
| Builder.WhiteHatIDDBuilder.GetFilterOnSeverity | src/main/java/com/whitehatsec/idd/jenkins/plugin/WhiteHatIDDBuilder.java:72-74 | `High` when the field is `null`, else the field; always a valid severity for a builder whose setters validated |
| Builder.WhiteHatIDDBuilder.GetFailOnSeverity | src/main/java/com/whitehatsec/idd/jenkins/plugin/WhiteHatIDDBuilder.java:76-78 | `Note` when the field is `null`, else the field; always a valid severity for a builder whose setters validated |
| Builder.WhiteHatIDDBuilder.SetFilterOnSeverity | src/main/java/com/whitehatsec/idd/jenkins/plugin/WhiteHatIDDBuilder.java:84-87 | a valid string is stored verbatim and any other string stores `High`; the validity invariant is kept and the other fields are unchanged |
| Builder.WhiteHatIDDBuilder.SetFailOnSeverity | src/main/java/com/whitehatsec/idd/jenkins/plugin/WhiteHatIDDBuilder.java:89-92 | a valid string is stored verbatim and any other string stores `Note`; the validity invariant is kept and the other fields are unchanged |
| Builder.WhiteHatIDDBuilder.SetHostMapping | src/main/java/com/whitehatsec/idd/jenkins/plugin/WhiteHatIDDBuilder.java:94-97 | the rule list is stored as given, `null` elements included, or an empty list for `null`, and `getHostMapping` returns it; never `null` |
| Builder.WhiteHatIDDBuilder.UpdateHostMappingSettings | src/main/java/com/whitehatsec/idd/jenkins/plugin/WhiteHatIDDBuilder.java:161-180 | `hosts` becomes the reconciled rules and both severity fields are copied; no other field changes; a `null` rule list or a `null` rule in it changes nothing and fails |
| Builder.WhiteHatIDDBuilder.HarSourcePath | src/main/java/com/whitehatsec/idd/jenkins/plugin/WhiteHatIDDBuilder.java:128-143 | an absolute source is returned as is; a relative source that exists becomes the workspace child; a relative source that does not exist is returned unchanged |
| Builder.WhiteHatIDDBuilder.HarSourcePathAbsoluteUnlessMissing | src/main/java/com/whitehatsec/idd/jenkins/plugin/WhiteHatIDDBuilder.java:128-139 | the resolved input is the source itself or an existing path, and is absolute unless it is a relative source that does not exist |
| Builder.WhiteHatIDDBuilder.SettingsFailure | src/main/java/com/whitehatsec/idd/jenkins/plugin/WhiteHatIDDBuilder.java:225-231 | the settings phase succeeds exactly when the seeded file reads as a document and the rule list and its rules are not `null` |
| Builder.WhiteHatIDDBuilder.PrepareSettings | src/main/java/com/whitehatsec/idd/jenkins/plugin/WhiteHatIDDBuilder.java:225-234 | no path but the job's settings file is written (parent directories the copy creates are left out); it fails exactly when seeding, reading or reconciliation fails, with that exception; the steps are the seeding copy (exactly when the file lacked content), the read of the seeded document and the save of its reconciliation; on failure the steps stop where the failure occurs and nothing is saved |
| Builder.WhiteHatIDDBuilder.RunInputs | src/main/java/com/whitehatsec/idd/jenkins/plugin/WhiteHatIDDBuilder.java:238-268 | runs follow the resolved inputs and stop at the first failure and only there; a failed walk throws before any run; FAILURE is set exactly on a non-zero exit; a directory-mode failure is wrapped in a RuntimeException |
| Builder.WhiteHatIDDBuilder.IsDirectoryMode | src/main/java/com/whitehatsec/idd/jenkins/plugin/WhiteHatIDDBuilder.java:239-241 | the step runs in directory mode exactly when the resolved input is an existing directory |
| Builder.WhiteHatIDDBuilder.Perform | src/main/java/com/whitehatsec/idd/jenkins/plugin/WhiteHatIDDBuilder.java:213-280 | no workspace or a blank `DIRECTED_DAST_HOME` ends the step with nothing touched; a failed settings phase ends it with that exception before any scan; otherwise the seeded document is saved reconciled and the scans run in input order, stopping at the first failure and only there; a step that ends without an exception scanned every input with exit 0 |

## Left out

- JSON parsing and serialisation (Gson) are abstracted. A file's content is
  empty, a `null` document, a parsed `Settings` value, or text that does
  not parse. Saving stores the `Settings` value. Pretty-printing,
  field-level JSON mapping and unknown keys are not modelled.
- Process launching is an oracle from command line to exit code. Output
  streaming, environment propagation, the working directory and the 32-bit
  width of the exit code are not modelled; the code only compares the exit
  code with 0.
- `InterruptedException` while waiting for the scanner (cancellation) is
  not modelled. Neither are IOExceptions from `exists`, `length` or the
  save, or an `UncheckedIOException` in the middle of a walk.
- The plugin lookup through `Jenkins.get().getPlugin` is replaced by the
  resource-directory parameter.
- Log lines written to the build listener are not modelled.
- Environment keys are taken to be spelled exactly as the code spells
  them. Jenkins' `EnvVars` compares keys without regard to case, so it
  would also find `DIRECTED_DAST_HOME` set as `directed_dast_home`.
- `DescriptorImpl` is Jenkins UI glue and is not modelled: form validation
  and the severity list boxes. The list boxes' reliance on declaration
  order is what `Severities.Ordinal` states. `WhiteHatIDDRecorder` holds no logic.
- Severities.ToUpper: only upper-case forms made only of ASCII letters
  are modelled (ASCII letters, U+0131, U+017F, ß and the Latin ligatures
  U+FB00 to U+FB06). Every other character is kept as it is. Java maps
  many non-ASCII ones to other characters or expands them. Some of those
  forms contain an ASCII letter: U+0149 gives U+02BC N, U+01F0 gives J
  and U+030C, and U+1E96 to U+1E9A give H, T, W, Y or A with a non-ASCII
  mark. Each such form still holds a character outside ASCII, as the kept
  character does, so whether a string names a severity is the same either
  way.
- Workspace.SeedSettings: a copy from a missing template leaves the
  filesystem unchanged. Jenkins' `FilePath.copyFrom` may open the target
  for writing before it reads the template, which would leave an empty
  settings file behind. Its contents are not part of this model. The next
  build seeds an empty file again either way. The copy also creates
  missing parent directories of the settings file, through
  `FilePath.write`. A `JOB_NAME` holding a '/' is the job of a folder or
  a multibranch pipeline, such as `f/j`. For it the settings file is
  `ws/idd-settings-jenkins-job-f/j.json`, and Jenkins creates the
  directory `ws/idd-settings-jenkins-job-f` first. If that parent is a
  regular file, the copy fails with an IOException. The model adds only
  the settings path and does not model this failure. So the frames of
  SeedSettings, PrepareSettings and Perform ("no other path changes") hold
  only for paths the copy does not create as parents.
- Builder.WhiteHatIDDBuilder.PrepareSettings: its frame leaves out the
  parent directories the seeding copy creates for a `JOB_NAME` holding a
  '/', and the IOException when such a parent is a regular file, as
  described for Workspace.SeedSettings above.
- Builder.WhiteHatIDDBuilder.Perform: the same frame gap as PrepareSettings.
- A `null` source is not modelled, because the source parameter is a
  non-null string. The constructor stores a `null` source as it is.
  `perform` then seeds, reads, reconciles and saves the settings, and only
  afterwards fails with an uncaught NullPointerException at
  `new File(harSource)`.
- A `null` string passed to a severity setter would throw a
  NullPointerException at `toUpperCase`. It is not modelled either.
- `toUpperCase` is modelled for a non-Turkish default locale. In the
  Turkish locale `i` upper-cases to a dotted capital I (U+0130). Then
  "Critical", "High" and "Medium" upper-case to "CRİTİCAL", "HİGH" and
  "MEDİUM" and name no constant. So `setFilterOnSeverity("Critical")`
  stores "High", and `LevelUpperIsName` and `LevelIsValid` would fail for
  three of the five constants.
- `Character.isWhitespace` follows current Unicode. Java 8 also treats
  U+180E as whitespace.
- Workspace.Join: `FilePath.child` and `java.io.File` normalise the path
  they build, and the model does not. They collapse duplicate separators,
  resolve `..`, drop `.` segments and drop a trailing separator. So for a
  child such as `hars/` the built path does not end with the child. A
  source of `hars/` resolves in Jenkins to the workspace directory `hars`,
  which is walked. The model looks up `hars/` under the workspace, finds
  nothing, and scans the string `hars/` once.
- Paths are Unix path strings. There are no Windows paths and no symbolic
  links.
- The controller's `java.io.File` and the agent's `FilePath` see one and
  the same filesystem. A directory's length is taken to be non-zero.
- Java lists are values here. Aliasing between a list passed to a setter
  and later changes to that list is not modelled.
