/**
 * `WhiteHatIDDBuilder`, the build step: the validated severity settings and
 * the host-mapping rules it holds; reconciling them into the settings
 * document; resolving the capture-file input; running the scanner once per
 * input; and `perform`, which sequences all of it.
 *
 * The environment is a map of variables, the filesystem a `FileMap`, the
 * directory walk a map from directory to the path strings `Files.walk`
 * yields in order (a directory with no entry: the walk fails with an
 * IOException), and the scanner a map from command line to exit code (a
 * command line with no entry: the launch fails with an IOException).
 */
module Builder {
  import opened Common
  import opened Severities
  import opened HostMappings
  import opened Configurations
  import opened Workspace

  /** The variable naming the scanner's installation root. */
  const HomeVariable := "DIRECTED_DAST_HOME"

  const DefaultFilterOnSeverity := Level(High)
  const DefaultFailOnSeverity := Level(Note)

  /** `EnvVars.get` for a key spelled exactly as given: `null` for an unset variable. */
  function EnvGet(env: map<string, string>, key: string): Option<string> {
    if key in env then Some(env[key]) else None
  }

  /** `JOB_NAME` as string concatenation renders it: `"null"` when unset. */
  function JobNameText(env: map<string, string>): string {
    EnvGet(env, "JOB_NAME").GetOr("null")
  }

  /** The settings file of the job: the per-job name inside the workspace. */
  function SettingsPath(ws: string, env: map<string, string>): string {
    Join(ws, SettingsFileName(JobNameText(env)))
  }

  /** The scanner command line for one input. */
  function CommandLine(home: string, settingsPath: string, harPath: string): string {
    home + "/target/directed-dast-common -settings-file " + settingsPath + " " + harPath
  }

  /** With the installation and settings fixed, each input gets its own command line. */
  lemma CommandLineDeterminesInput(home: string, settingsPath: string, p: string, q: string)
    requires CommandLine(home, settingsPath, p) == CommandLine(home, settingsPath, q)
    ensures p == q
  {
    var prefix := home + "/target/directed-dast-common -settings-file " + settingsPath + " ";
    assert CommandLine(home, settingsPath, p) == prefix + p;
    assert CommandLine(home, settingsPath, q) == prefix + q;
    assert p == (prefix + p)[|prefix|..];
    assert q == (prefix + q)[|prefix|..];
  }

  /** The scanner's exit code for a command line, `None` when it cannot be launched. */
  function LaunchResult(launches: map<string, int>, commandLine: string): Option<int> {
    if commandLine in launches then Some(launches[commandLine]) else None
  }

  /** One scanner run: its input, its command line, and its exit code (`None`: not launched). */
  datatype Invocation = Invocation(harPath: string, commandLine: string, exitCode: Option<int>)

  predicate Succeeded(inv: Invocation) {
    inv.exitCode == Some(0)
  }

  predicate ExitedNonZero(inv: Invocation) {
    inv.exitCode.Some? && inv.exitCode.value != 0
  }

  /**
   * The runs went through `targets` in order, one command line each, and
   * every run but the last one exited 0.
   */
  predicate RunsFollow(runs: seq<Invocation>, targets: seq<string>, home: string, settingsPath: string,
                       launches: map<string, int>)
  {
    |runs| <= |targets|
    && (forall k :: 0 <= k < |runs| ==>
          runs[k].harPath == targets[k]
          && runs[k].commandLine == CommandLine(home, settingsPath, targets[k])
          && runs[k].exitCode == LaunchResult(launches, runs[k].commandLine))
    && forall k :: 0 <= k < |runs| - 1 ==> Succeeded(runs[k])
  }

  /**
   * How the scanner phase of a build ends, given the inputs it resolved
   * (`None`: the directory walk failed) and whether it ran in directory
   * mode:
   * - the runs follow the inputs in order and every run but the last exited 0;
   * - no exception means every input was run and exited 0;
   * - the run's result is set to FAILURE exactly when a run exited non-zero;
   * - a failed walk ends the step with its IOException before any run;
   * - otherwise an exception comes only from a failed last run, and is that
   *   run's exception, wrapped in a RuntimeException in directory mode.
   */
  predicate ScannerOutcome(runs: seq<Invocation>, markedFailure: bool, thrown: Option<Failure>,
                           targets: Option<seq<string>>, directoryMode: bool,
                           home: string, settingsPath: string, launches: map<string, int>)
  {
    (runs != [] ==> targets.Some? && RunsFollow(runs, targets.value, home, settingsPath, launches))
    && (thrown.None? ==>
          targets.Some? && |runs| == |targets.value| && forall k :: 0 <= k < |runs| ==> Succeeded(runs[k]))
    && (markedFailure <==> exists k :: 0 <= k < |runs| && ExitedNonZero(runs[k]))
    && (targets.None? ==> runs == [] && !markedFailure && thrown == Some(Io))
    && (thrown.Some? && targets.Some? ==> runs != [] && !Succeeded(runs[|runs| - 1]))
    && (runs != [] && !Succeeded(runs[|runs| - 1]) ==>
          var f := InvocationFailure(runs[|runs| - 1]).value;
          thrown == Some(if directoryMode then Runtime(f) else f))
  }

  /**
   * The scanner phase is determined by its inputs: two outcomes that both
   * fit the same inputs, installation, settings file and scanner are equal.
   */
  lemma ScannerOutcomeDetermined(runs1: seq<Invocation>, marked1: bool, thrown1: Option<Failure>,
                                 runs2: seq<Invocation>, marked2: bool, thrown2: Option<Failure>,
                                 targets: Option<seq<string>>, directoryMode: bool,
                                 home: string, settingsPath: string, launches: map<string, int>)
    requires ScannerOutcome(runs1, marked1, thrown1, targets, directoryMode, home, settingsPath, launches)
    requires ScannerOutcome(runs2, marked2, thrown2, targets, directoryMode, home, settingsPath, launches)
    ensures runs1 == runs2 && marked1 == marked2 && thrown1 == thrown2
  {
    if targets.Some? {
      SameLength(runs1, thrown1, runs2, thrown2, targets, directoryMode, home, settingsPath, launches, marked1, marked2);
      SameLength(runs2, thrown2, runs1, thrown1, targets, directoryMode, home, settingsPath, launches, marked2, marked1);
      assert |runs1| == |runs2|;
      forall k | 0 <= k < |runs1|
        ensures runs1[k] == runs2[k]
      {
      }
    }
  }

  /** One outcome of the scanner phase never holds more runs than another. */
  lemma SameLength(runs1: seq<Invocation>, thrown1: Option<Failure>,
                   runs2: seq<Invocation>, thrown2: Option<Failure>,
                   targets: Option<seq<string>>, directoryMode: bool,
                   home: string, settingsPath: string, launches: map<string, int>,
                   marked1: bool, marked2: bool)
    requires targets.Some?
    requires ScannerOutcome(runs1, marked1, thrown1, targets, directoryMode, home, settingsPath, launches)
    requires ScannerOutcome(runs2, marked2, thrown2, targets, directoryMode, home, settingsPath, launches)
    ensures |runs1| <= |runs2|
  {
    if thrown2.None? {
      assert |runs2| == |targets.value|;
    } else {
      var j := |runs2| - 1;
      assert j < |runs1| ==> runs1[j] == runs2[j];
    }
  }

  /** What `invokeIDD` throws after a run: AbortException on a non-zero exit, IOException on a failed launch. */
  function InvocationFailure(inv: Invocation): (r: Option<Failure>)
    ensures r.None? <==> Succeeded(inv)
    ensures r == Some(Abort) <==> ExitedNonZero(inv)
  {
    match inv.exitCode
    case None => Some(Io)
    case Some(code) => if code != 0 then Some(Abort) else None
  }

  /**
   * The inputs a resolved path stands for: the walked paths that end in
   * `.har` when it is a directory (`None` when the walk fails), otherwise
   * the path itself, whether it exists or not.
   */
  function Inputs(files: FileMap, walks: map<string, seq<string>>, path: string): (r: Option<seq<string>>)
    ensures r.None? <==> path in files && files[path].Directory? && path !in walks
    ensures r.Some? && !(path in files && files[path].Directory?) ==> r.value == [path]
    ensures r.Some? && path in files && files[path].Directory? ==>
      r.value == HarFiles(walks[path]) && forall p :: p in r.value <==> p in walks[path] && EndsWith(p, ".har")
  {
    if path in files && files[path].Directory? then
      if path in walks then Some(HarFiles(walks[path])) else None
    else Some([path])
  }

  /** Settings file steps `perform` takes before running the scanner. */
  datatype SetupStep =
    | SeededSettings(template: string, dest: string)
    | ReadSettingsFile(path: string, settings: Settings)
    | SavedSettings(path: string, saved: Settings)

  /**
   * What a `perform` call leaves behind: the settings steps taken, the
   * scanner runs in order, the filesystem, whether the run's result was set
   * to FAILURE, and the exception it ended with, if any.
   */
  datatype RunOutcome = RunOutcome(
    setup: seq<SetupStep>,
    invocations: seq<Invocation>,
    files: FileMap,
    markedFailure: bool,
    thrown: Option<Failure>)

  /** The filesystem once `getSettingsPath` has seeded the job's settings file, `None` when the copy fails. */
  function SeededFiles(files: FileMap, ws: string, env: map<string, string>, webAppPath: string): Option<FileMap> {
    SeedSettings(files, TemplatePath(webAppPath), SettingsPath(ws, env))
  }

  /** What `readSettings` yields for the seeded settings file; a failed copy surfaces as its IOException. */
  function SeededDocument(files: FileMap, ws: string, env: map<string, string>, webAppPath: string)
    : Result<Option<Settings>>
  {
    match SeededFiles(files, ws, env, webAppPath)
    case None => Err(Io)
    case Some(seeded) => ReadSettings(seeded, SettingsPath(ws, env))
  }

  /** A job whose settings file already holds a document reads that document, whatever the template holds. */
  lemma SeededDocumentKeepsExisting(files: FileMap, ws: string, env: map<string, string>, webAppPath: string,
                                    s: Settings)
    requires SettingsPath(ws, env) in files && files[SettingsPath(ws, env)] == RegularFile(Document(s))
    ensures SeededDocument(files, ws, env, webAppPath) == Ok(Some(s))
  {
    assert HasContent(files[SettingsPath(ws, env)]);
  }

  /** A job without a settings file, or with an empty one, reads the template's document. */
  lemma SeededDocumentFromTemplate(files: FileMap, ws: string, env: map<string, string>, webAppPath: string,
                                   s: Settings)
    requires SettingsPath(ws, env) !in files || files[SettingsPath(ws, env)] == RegularFile(Empty)
    requires TemplatePath(webAppPath) in files && files[TemplatePath(webAppPath)] == RegularFile(Document(s))
    ensures SeededDocument(files, ws, env, webAppPath) == Ok(Some(s))
  {
    var seeded := SeedSettings(files, TemplatePath(webAppPath), SettingsPath(ws, env));
    assert seeded.Some? && seeded.value[SettingsPath(ws, env)] == RegularFile(Document(s));
  }

  /** The seeding step `getSettingsPath` takes: a copy exactly when the settings file lacks content. */
  function SeedSteps(files: FileMap, ws: string, env: map<string, string>, webAppPath: string): seq<SetupStep> {
    var path := SettingsPath(ws, env);
    if path in files && HasContent(files[path]) then [] else [SeededSettings(TemplatePath(webAppPath), path)]
  }

  /**
   * The settings steps taken when the settings phase stops early: none
   * when the copy fails, the seeding step when the file cannot be read or
   * holds `null`, and the seeding and reading steps when reconciliation
   * fails.
   */
  function FailedSetup(files: FileMap, ws: string, env: map<string, string>, webAppPath: string)
    : seq<SetupStep>
  {
    var document := SeededDocument(files, ws, env, webAppPath);
    if SeededFiles(files, ws, env, webAppPath).None? then []
    else if document.Ok? && document.value.Some? then
      SeedSteps(files, ws, env, webAppPath) + [ReadSettingsFile(SettingsPath(ws, env), document.value.value)]
    else SeedSteps(files, ws, env, webAppPath)
  }

  /** A settings phase that stops early has saved nothing. */
  lemma FailedSetupSavesNothing(files: FileMap, ws: string, env: map<string, string>, webAppPath: string)
    ensures forall i :: 0 <= i < |FailedSetup(files, ws, env, webAppPath)| ==>
      !FailedSetup(files, ws, env, webAppPath)[i].SavedSettings?
  {
  }

  /**
   * The settings steps are the seeding steps, then reading `document` from
   * `path` and saving it back reconciled with `rules` and the two severity
   * fields; the file then holds the saved document.
   */
  predicate SavedReconciled(setup: seq<SetupStep>, fs: FileMap, seedSteps: seq<SetupStep>, path: string,
                            document: Settings, rules: seq<HostMappingRule>,
                            filter: Option<string>, fail: Option<string>)
  {
    var saved := ReconcileSettings(document, rules, filter, fail);
    setup == seedSteps + [ReadSettingsFile(path, document), SavedSettings(path, saved)]
    && path in fs && fs[path] == RegularFile(Document(saved))
  }

  /**
   * Runs the scanner on `targets` in order and stops after the first run
   * that fails, which `forEach` does when the failure escapes it as a
   * RuntimeException.
   */
  method InvokeEach(targets: seq<string>, home: string, settingsPath: string, launches: map<string, int>)
    returns (done: seq<Invocation>, failure: Option<Failure>)
    ensures RunsFollow(done, targets, home, settingsPath, launches)
    ensures failure.None? <==> |done| == |targets| && forall k :: 0 <= k < |done| ==> Succeeded(done[k])
    ensures failure.Some? ==> |done| > 0 && failure == InvocationFailure(done[|done| - 1])
  {
    done, failure := [], None;
    var i := 0;
    while i < |targets|
      invariant 0 <= i <= |targets| && |done| == i
      invariant forall k :: 0 <= k < i ==>
        done[k].harPath == targets[k]
        && done[k].commandLine == CommandLine(home, settingsPath, targets[k])
        && done[k].exitCode == LaunchResult(launches, done[k].commandLine)
      invariant forall k :: 0 <= k < i ==> Succeeded(done[k])
    {
      var inv, f := InvokeIDD(settingsPath, targets[i], home, launches);
      done := done + [inv];
      if f.Some? {
        failure := f;
        return;
      }
      i := i + 1;
    }
  }

  /**
   * `invokeIDD`: builds the command line, runs the scanner, and fails with
   * AbortException unless it exits 0 (or with IOException when it cannot
   * be launched).
   */
  method InvokeIDD(settingsPath: string, harPath: string, home: string, launches: map<string, int>)
    returns (inv: Invocation, failure: Option<Failure>)
    ensures inv.harPath == harPath && inv.commandLine == CommandLine(home, settingsPath, harPath)
    ensures inv.exitCode == LaunchResult(launches, inv.commandLine)
    ensures failure.None? <==> inv.exitCode == Some(0)
    ensures failure == Some(Abort) <==> inv.exitCode.Some? && inv.exitCode.value != 0
    ensures failure == InvocationFailure(inv)
  {
    var cmdLine := CommandLine(home, settingsPath, harPath);
    var exitCode := LaunchResult(launches, cmdLine);
    inv := Invocation(harPath, cmdLine, exitCode);
    if exitCode.None? {
      failure := Some(Io);
    } else if exitCode.value != 0 {
      failure := Some(Abort);
    } else {
      failure := None;
    }
  }

  class WhiteHatIDDBuilder {
    var harSource: string
    var filterOnSeverity: Option<string>
    var failOnSeverity: Option<string>
    var hostMapping: Option<seq<Option<HostMappingRule>>>

    /**
     * The severity fields hold `null` (an instance restored from an older
     * configuration) or a string that passes the validity test.
     */
    ghost predicate Valid()
      reads this
    {
      (filterOnSeverity.Some? ==> IsValidSeverity(filterOnSeverity.value))
      && (failOnSeverity.Some? ==> IsValidSeverity(failOnSeverity.value))
    }

    constructor (harSource: string)
      ensures Valid()
      ensures this.harSource == harSource && hostMapping == Some([])
      ensures filterOnSeverity == Some(DefaultFilterOnSeverity) && failOnSeverity == Some(DefaultFailOnSeverity)
    {
      this.harSource := harSource;
      filterOnSeverity := Some(DefaultFilterOnSeverity);
      failOnSeverity := Some(DefaultFailOnSeverity);
      hostMapping := Some([]);
      new;
      LevelIsValid(High);
      LevelIsValid(Note);
    }

    function GetHarSource(): string reads this { harSource }

    /** The filter level, `High` when the field is `null`; a valid severity in a valid builder. */
    function GetFilterOnSeverity(): (r: string)
      reads this
      ensures filterOnSeverity.None? ==> r == Level(High)
      ensures filterOnSeverity.Some? ==> r == filterOnSeverity.value
      ensures Valid() ==> IsValidSeverity(r)
    {
      LevelIsValid(High);
      filterOnSeverity.GetOr(DefaultFilterOnSeverity)
    }

    /** The fail level, `Note` when the field is `null`; a valid severity in a valid builder. */
    function GetFailOnSeverity(): (r: string)
      reads this
      ensures failOnSeverity.None? ==> r == Level(Note)
      ensures failOnSeverity.Some? ==> r == failOnSeverity.value
      ensures Valid() ==> IsValidSeverity(r)
    {
      LevelIsValid(Note);
      failOnSeverity.GetOr(DefaultFailOnSeverity)
    }

    /** The rule list, never `null`; its elements may be. */
    function GetHostMapping(): seq<Option<HostMappingRule>> reads this { hostMapping.GetOr([]) }

    /** The rules reconciliation iterates, `None` when the list or one of its elements is `null`. */
    function RuleList(): Option<seq<HostMappingRule>>
      reads this
    {
      if hostMapping.None? then None else PresentRules(hostMapping.value)
    }

    /** Stores the string if its upper-case form names a severity, else `High`. */
    method SetFilterOnSeverity(s: string)
      modifies this
      ensures IsValidSeverity(s) ==> GetFilterOnSeverity() == s
      ensures !IsValidSeverity(s) ==> GetFilterOnSeverity() == Level(High)
      ensures old(Valid()) ==> Valid()
      ensures filterOnSeverity.Some?
      ensures harSource == old(harSource) && failOnSeverity == old(failOnSeverity) && hostMapping == old(hostMapping)
    {
      filterOnSeverity := Some(SeverityOrDefault(s, High));
    }

    /** Stores the string if its upper-case form names a severity, else `Note`. */
    method SetFailOnSeverity(s: string)
      modifies this
      ensures IsValidSeverity(s) ==> GetFailOnSeverity() == s
      ensures !IsValidSeverity(s) ==> GetFailOnSeverity() == Level(Note)
      ensures old(Valid()) ==> Valid()
      ensures failOnSeverity.Some?
      ensures harSource == old(harSource) && filterOnSeverity == old(filterOnSeverity) && hostMapping == old(hostMapping)
    {
      failOnSeverity := Some(SeverityOrDefault(s, Note));
    }

    /** Stores a copy of the list, or an empty list for `null`. */
    method SetHostMapping(rules: Option<seq<Option<HostMappingRule>>>)
      modifies this
      ensures hostMapping.Some? && GetHostMapping() == rules.GetOr([])
      ensures harSource == old(harSource) && filterOnSeverity == old(filterOnSeverity)
      ensures failOnSeverity == old(failOnSeverity)
    {
      hostMapping := Some(rules.GetOr([]));
    }

    /**
     * `updateHostMappingSettings`: the rules, reconciled, replace `hosts`;
     * the severity FIELDS (not the getters' defaults) are copied over. A
     * `null` rule list, or a `null` rule in it, fails the loop with a
     * NullPointerException before anything is changed.
     */
    method UpdateHostMappingSettings(config: Configuration) returns (ok: bool)
      modifies config
      ensures ok <==> RuleList().Some?
      ensures ok ==>
        config.Snapshot() == ReconcileSettings(old(config.Snapshot()), RuleList().value, filterOnSeverity, failOnSeverity)
      ensures !ok ==> config.Snapshot() == old(config.Snapshot())
    {
      if hostMapping.None? {
        return false;
      }
      var rules := hostMapping.value;
      ghost var seen: seq<HostMappingRule> := [];
      var entries: seq<HostMapping> := [];
      var i := 0;
      while i < |rules|
        invariant 0 <= i <= |rules|
        invariant PresentRules(rules[..i]) == Some(seen)
        invariant entries == Reconciled(seen)
      {
        assert rules[..i + 1][..i] == rules[..i];
        if rules[i].None? {
          assert PresentRules(hostMapping.value).None? by {
            assert hostMapping.value[i].None?;
          }
          return false;
        }
        var hm := rules[i].value;
        assert (seen + [hm])[..|seen|] == seen;
        seen := seen + [hm];
        if IsBlank(hm.fromHost) || IsBlank(hm.toHost) {
          i := i + 1;
          continue;
        }
        var h := HostMapping(hm.enableHostMapping, hm.fromHost.value, hm.toHost.value);
        entries := Put(entries, h);
        i := i + 1;
      }
      assert rules[..i] == rules;
      config.SetHosts(Some(entries));
      config.SetFilterOnSeverity(filterOnSeverity);
      config.SetFailOnSeverity(failOnSeverity);
      ok := true;
    }

    /**
     * `getHarSourcePath`: an absolute source is used as it is; a relative
     * one becomes the workspace child when that exists, and otherwise is
     * returned unchanged, which is not an error.
     */
    function HarSourcePath(files: FileMap, ws: string): (r: string)
      reads this
      ensures IsAbsolute(harSource) ==> r == harSource
      ensures !IsAbsolute(harSource) && Join(ws, harSource) in files ==> r == Join(ws, harSource)
      ensures !IsAbsolute(harSource) && Join(ws, harSource) !in files ==> r == harSource
    {
      if IsAbsolute(harSource) then harSource
      else if Join(ws, harSource) in files then Join(ws, harSource)
      else harSource
    }

    /**
     * With an absolute workspace, the resolved input is absolute unless it
     * is a relative source that does not exist there; and it is always
     * either the source itself or an existing path.
     */
    lemma HarSourcePathAbsoluteUnlessMissing(files: FileMap, ws: string)
      requires IsAbsolute(ws)
      ensures IsAbsolute(HarSourcePath(files, ws))
        || (!IsAbsolute(harSource) && Join(ws, harSource) !in files)
      ensures HarSourcePath(files, ws) == harSource || HarSourcePath(files, ws) in files
    {
    }

    /**
     * The settings half of `perform`: seed the job's settings file from the
     * template (`getSettingsPath`), read it, reconcile it and save it back.
     * Reading fails on a file that is not there or does not parse; a `null`
     * document or a `null` rule list fails reconciliation with a
     * NullPointerException. Nothing is saved unless every step succeeds.
     */
    method PrepareSettings(env: map<string, string>, ws: string, webAppPath: string, files: FileMap)
      returns (setup: seq<SetupStep>, fs: FileMap, failure: Option<Failure>)
      ensures forall p :: p != SettingsPath(ws, env) ==>
        (p in fs <==> p in files) && (p in files ==> fs[p] == files[p])
      ensures failure == SettingsFailure(files, ws, env, webAppPath)
      ensures failure.None? ==>
        SavedReconciled(setup, fs, SeedSteps(files, ws, env, webAppPath), SettingsPath(ws, env),
                        SeededDocument(files, ws, env, webAppPath).value.value,
                        RuleList().value, filterOnSeverity, failOnSeverity)
      ensures failure.Some? ==>
        fs == SeededFiles(files, ws, env, webAppPath).GetOr(files)
        && setup == FailedSetup(files, ws, env, webAppPath)
    {
      var template := TemplatePath(webAppPath);
      var settingsPath := SettingsPath(ws, env);
      var seeded := SeedSettings(files, template, settingsPath);
      if seeded.None? {
        return [], files, Some(Io);
      }
      fs := seeded.value;
      setup := [];
      if !(settingsPath in files && HasContent(files[settingsPath])) {
        setup := [SeededSettings(template, settingsPath)];
      }

      var read := ReadSettings(fs, settingsPath);
      if read.Err? {
        return setup, fs, Some(read.failure);
      }
      if read.value.None? {
        return setup, fs, Some(NullPointer);
      }
      var document := read.value.value;
      setup := setup + [ReadSettingsFile(settingsPath, document)];

      var config := new Configuration.FromSettings(document);
      var ok := UpdateHostMappingSettings(config);
      if !ok {
        return setup, fs, Some(NullPointer);
      }
      var saved := config.Snapshot();
      fs := fs[settingsPath := RegularFile(Document(saved))];
      setup := setup + [SavedSettings(settingsPath, saved)];
      failure := None;
    }

    /**
     * Why the settings half of `perform` stops, if it does: the IOException
     * of a failed copy or a missing file, the syntax error of a file that
     * does not parse, or the NullPointerException of a `null` document or
     * rule.
     */
    function SettingsFailure(files: FileMap, ws: string, env: map<string, string>, webAppPath: string)
      : (r: Option<Failure>)
      reads this
      ensures r.None? <==>
        SeededDocument(files, ws, env, webAppPath).Ok? && SeededDocument(files, ws, env, webAppPath).value.Some?
        && RuleList().Some?
    {
      var document := SeededDocument(files, ws, env, webAppPath);
      if document.Err? then Some(document.failure)
      else if document.value.None? || RuleList().None? then Some(NullPointer)
      else None
    }

    /** The inputs `perform` runs the scanner on, when the walk succeeds. */
    function Targets(files: FileMap, walks: map<string, seq<string>>, ws: string): Option<seq<string>>
      reads this
    {
      Inputs(files, walks, HarSourcePath(files, ws))
    }

    /** The resolved input is a directory: `perform` is in directory mode. */
    predicate IsDirectoryMode(files: FileMap, ws: string)
      reads this
    {
      HarSourcePath(files, ws) in files && files[HarSourcePath(files, ws)].Directory?
    }

    /**
     * The scanner half of `perform`: resolve the input, run the scanner on
     * each target, and turn the first failure into the step's exception.
     */
    method RunInputs(fs: FileMap, ws: string, home: string, settingsPath: string,
                     walks: map<string, seq<string>>, launches: map<string, int>)
      returns (runs: seq<Invocation>, markedFailure: bool, thrown: Option<Failure>)
      ensures ScannerOutcome(runs, markedFailure, thrown, Targets(fs, walks, ws), IsDirectoryMode(fs, ws),
                             home, settingsPath, launches)
    {
      var targets := Targets(fs, walks, ws);
      if targets.None? {
        return [], false, Some(Io);
      }
      var failure;
      runs, failure := InvokeEach(targets.value, home, settingsPath, launches);
      if failure.None? {
        return runs, false, None;
      }
      var f := failure.value;
      assert f == Abort <==> ExitedNonZero(runs[|runs| - 1]);
      markedFailure := f == Abort;
      thrown := Some(if IsDirectoryMode(fs, ws) then Runtime(f) else f);
    }

    /**
     * `perform`: check the workspace and `DIRECTED_DAST_HOME`; prepare the
     * settings; run the scanner on the resolved input, or on each capture
     * file under it, stopping at the first failure.
     */
    method Perform(env: map<string, string>, workspace: Option<string>, webAppPath: string,
                   files: FileMap, walks: map<string, seq<string>>, launches: map<string, int>)
      returns (out: RunOutcome)
      // Nothing happens without a workspace or an installation root.
      ensures workspace.None? ==> out == RunOutcome([], [], files, false, Some(IllegalState))
      ensures workspace.Some? && IsBlank(EnvGet(env, HomeVariable)) ==>
        out == RunOutcome([], [], files, false, Some(Interrupted))
      // No path but the job's settings file is written (parent directories
      // the copy creates are not modelled).
      ensures workspace.Some? ==> forall p :: p != SettingsPath(workspace.value, env) ==>
        (p in out.files <==> p in files) && (p in files ==> out.files[p] == files[p])
      // A failed settings phase ends the step before any scanner run.
      ensures workspace.Some? && !IsBlank(EnvGet(env, HomeVariable))
              && SettingsFailure(files, workspace.value, env, webAppPath).Some? ==>
        out.invocations == [] && !out.markedFailure
        && out.thrown == SettingsFailure(files, workspace.value, env, webAppPath)
        && out.files == SeededFiles(files, workspace.value, env, webAppPath).GetOr(files)
        && out.setup == FailedSetup(files, workspace.value, env, webAppPath)
      // Otherwise the document read is saved reconciled before the scanner
      // runs: in input order, stopping at the first failure, FAILURE on a
      // non-zero exit.
      ensures workspace.Some? && !IsBlank(EnvGet(env, HomeVariable))
              && SettingsFailure(files, workspace.value, env, webAppPath).None? ==>
        SavedReconciled(out.setup, out.files, SeedSteps(files, workspace.value, env, webAppPath),
                        SettingsPath(workspace.value, env),
                        SeededDocument(files, workspace.value, env, webAppPath).value.value,
                        RuleList().value, filterOnSeverity, failOnSeverity)
        && ScannerOutcome(out.invocations, out.markedFailure, out.thrown,
                          Targets(out.files, walks, workspace.value), IsDirectoryMode(out.files, workspace.value),
                          EnvGet(env, HomeVariable).value, SettingsPath(workspace.value, env), launches)
    {
      if workspace.None? {
        return RunOutcome([], [], files, false, Some(IllegalState));
      }
      var ws := workspace.value;
      var home := EnvGet(env, HomeVariable);
      if IsBlank(home) {
        return RunOutcome([], [], files, false, Some(Interrupted));
      }

      var setup, fs, failure := PrepareSettings(env, ws, webAppPath, files);
      if failure.Some? {
        return RunOutcome(setup, [], fs, false, failure);
      }
      var runs, markedFailure, thrown := RunInputs(fs, ws, home.value, SettingsPath(ws, env), walks, launches);
      out := RunOutcome(setup, runs, fs, markedFailure, thrown);
    }
  }
}
