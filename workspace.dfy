/**
 * The filesystem as the build step sees it: path strings, a map from path
 * to node, the settings file's name, and seeding it from the template.
 * Paths are Unix paths; a path string is looked up as written.
 */
module Workspace {
  import opened Common
  import opened Configurations

  /**
   * What a regular file holds, as far as reading settings is concerned:
   * nothing (length 0), a document that parses to `null` (whitespace or the
   * literal `null`), a settings document, or text that does not parse.
   */
  datatype Content = Empty | NullDocument | Document(settings: Settings) | Malformed

  datatype Node = Directory | RegularFile(content: Content)

  type FileMap = map<string, Node>

  /** `File.isAbsolute` on Unix. */
  predicate IsAbsolute(p: string) {
    |p| > 0 && p[0] == '/'
  }

  /** `String.endsWith`. */
  predicate EndsWith(s: string, suffix: string) {
    |suffix| <= |s| && s[|s| - |suffix|..] == suffix
  }

  /**
   * A relative `child` under `parent`, as `FilePath.child` and
   * `new File(parent, child)` build it: one separator between the two, and
   * an empty parent standing for the root directory.
   */
  function Join(parent: string, child: string): (r: string)
    ensures IsAbsolute(parent) || parent == [] ==> IsAbsolute(r)
    ensures EndsWith(r, child) && |r| > |child|
  {
    if parent != [] && parent[|parent| - 1] == '/' then parent + child
    else parent + "/" + child
  }

  /** `FilePath.length() > 0`; a directory's length is never zero. */
  predicate HasContent(n: Node) {
    n.Directory? || n.content != Empty
  }

  const SettingsFilePrefix := "idd-settings-jenkins-job-"
  const SettingsFileSuffix := ".json"

  /** The per-job settings file name. */
  function SettingsFileName(jobName: string): (r: string)
    ensures |r| == |SettingsFilePrefix| + |jobName| + |SettingsFileSuffix|
    ensures r[..|SettingsFilePrefix|] == SettingsFilePrefix && EndsWith(r, SettingsFileSuffix)
  {
    SettingsFilePrefix + jobName + SettingsFileSuffix
  }

  /** Different job names get different settings files. */
  lemma SettingsFileNameInjective(a: string, b: string)
    requires SettingsFileName(a) == SettingsFileName(b)
    ensures a == b
  {
    var n := |SettingsFilePrefix|;
    assert |a| == |b|;
    assert a == SettingsFileName(a)[n..n + |a|];
    assert b == SettingsFileName(b)[n..n + |b|];
  }

  /** The template's path: `settings.default.json` in the plugin's resource directory. */
  function TemplatePath(webAppPath: string): string {
    Join(webAppPath, "settings.default.json")
  }

  /**
   * Seeding: a settings file that exists with non-zero length is left as it
   * is; otherwise the template is copied over it, which fails (`None`, an
   * IOException) when the template is not a regular file. Only the
   * settings path itself is modelled: the parent directories the copy may
   * create are not.
   */
  function SeedSettings(files: FileMap, template: string, dest: string): (r: Option<FileMap>)
    ensures dest in files && HasContent(files[dest]) ==> r == Some(files)
    ensures r.None? <==>
      !(dest in files && HasContent(files[dest])) && !(template in files && files[template].RegularFile?)
    ensures r.Some? && !(dest in files && HasContent(files[dest])) ==>
      template in files && dest in r.value && r.value[dest] == files[template]
    ensures r.Some? ==> r.value.Keys == files.Keys + {dest}
    ensures r.Some? ==> forall p :: p in files && p != dest ==> r.value[p] == files[p]
  {
    if dest in files && HasContent(files[dest]) then Some(files)
    else if template in files && files[template].RegularFile? then Some(files[dest := files[template]])
    else None
  }

  /** A second seeding finds the file already in place and changes nothing. */
  lemma SeedSettingsIdempotent(files: FileMap, template: string, dest: string)
    requires SeedSettings(files, template, dest).Some?
    ensures SeedSettings(SeedSettings(files, template, dest).value, template, dest)
         == SeedSettings(files, template, dest)
  {
    var once := SeedSettings(files, template, dest).value;
    if !(dest in once && HasContent(once[dest])) {
      assert template in once && once[template].RegularFile?;
      assert once[dest := once[template]] == once;
    }
  }

  /**
   * Reading the settings file: an IOException unless it is a regular file,
   * a syntax error for text that does not parse, otherwise the parsed
   * document, which is `null` for an empty file.
   */
  function ReadSettings(files: FileMap, path: string): (r: Result<Option<Settings>>)
    ensures r.Ok? <==> path in files && files[path].RegularFile? && files[path].content != Malformed
    ensures r.Ok? && r.value.Some? ==> files[path] == RegularFile(Document(r.value.value))
    ensures r == Ok(None) <==>
      path in files && (files[path] == RegularFile(Empty) || files[path] == RegularFile(NullDocument))
    ensures path in files && files[path].RegularFile? && files[path].content.Document? ==>
      r == Ok(Some(files[path].content.settings))
  {
    if path !in files || files[path].Directory? then Err(Io)
    else match files[path].content
      case Empty => Ok(None)
      case NullDocument => Ok(None)
      case Document(s) => Ok(Some(s))
      case Malformed => Err(JsonSyntax)
  }

  /** The walked paths that name capture files, in walk order. */
  function HarFiles(walked: seq<string>): (r: seq<string>)
    ensures |r| <= |walked|
    ensures forall p :: p in r <==> p in walked && EndsWith(p, ".har")
  {
    if walked == [] then []
    else if EndsWith(walked[0], ".har") then [walked[0]] + HarFiles(walked[1..])
    else HarFiles(walked[1..])
  }

  /**
   * Filtering keeps the walk order: the capture files of a walk are those
   * of its first part followed by those of the rest.
   */
  lemma {:induction false} HarFilesKeepsOrder(a: seq<string>, b: seq<string>)
    ensures HarFiles(a + b) == HarFiles(a) + HarFiles(b)
  {
    if a != [] {
      assert (a + b)[0] == a[0] && (a + b)[1..] == a[1..] + b;
      HarFilesKeepsOrder(a[1..], b);
    } else {
      assert a + b == b;
    }
  }
}
