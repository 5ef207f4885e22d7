/** `execute`: the whole goal as one function of the parameters, the environment
    and the disk, step by step in the order the plugin runs them. */
module Pipeline {
  import opened Wrappers
  import opened Strings
  import opened Paths
  import opened FileSystem
  import opened Naming
  import opened Parameters
  import opened Descriptor
  import opened Scripts
  import opened Artifacts
  import opened Provisioning
  import opened Mirror

  /** What the plugin reads from outside the disk: its bundled WinSW executable,
      if any, and what a URL serves, `None` when opening it fails. */
  datatype Env = Env(resource: Option<Content>, fetch: string -> Option<Content>)

  /** How a run ends: any exception becomes one `MojoExecutionException` wrapping it. */
  datatype Outcome = Success | Failure(cause: IoError)

  /** The run's outcome, the `winswDownloadUrl` field afterwards, and the disk afterwards. */
  datatype RunState = RunState(outcome: Outcome, downloadUrl: Option<string>, fs: Fs)

  /** The names and paths a run derives before touching the disk. */
  datatype Plan = Plan(
    id: string,
    outputDir: Path,
    jarOutputDir: Path,
    sourceJar: Path,
    targetJar: Path,
    exe: Path,
    xml: Path,
    logDir: Path)

  /** The plan of a run: the effective id, the configured directories and jar, the
      two generated files directly in the output directory, the target jar under the
      source jar's name in the jar directory, and the log directory with `%BASE%`
      resolved against the absolute output directory. */
  function PlanOf(cfg: Config): (p: Plan)
    ensures p.id == EffectiveServiceId(cfg.serviceId, cfg.projectName)
    ensures p.outputDir == PathOf(cfg.outputDir) && p.jarOutputDir == PathOf(cfg.jarOutputDir)
    ensures p.sourceJar == PathOf(cfg.jarPath)
    ensures p.exe == ExePath(p.outputDir, p.id) && p.xml == XmlPath(p.outputDir, p.id)
    ensures NoSeparator(p.id) ==> p.exe == p.outputDir + [p.id + ExeSuffix] && p.xml == p.outputDir + [p.id + XmlSuffix]
    ensures p.targetJar == ResolveText(p.jarOutputDir, FileName(p.sourceJar))
    ensures p.logDir == PathOf(ReplaceAll(cfg.logPath, BaseToken, cfg.absoluteOutputDir))
    ensures !Contains(cfg.logPath, BaseToken) ==> p.logDir == PathOf(cfg.logPath)
  {
    var id := EffectiveServiceId(cfg.serviceId, cfg.projectName);
    var out := PathOf(cfg.outputDir);
    var jarOut := PathOf(cfg.jarOutputDir);
    var sourceJar := PathOf(cfg.jarPath);
    assert NoSeparator(id) ==> ExePath(out, id) == out + [id + ExeSuffix] && XmlPath(out, id) == out + [id + XmlSuffix] by {
      if NoSeparator(id) { GeneratedPaths(out, id); }
    }
    Plan(id, out, jarOut, sourceJar, ResolveText(jarOut, FileName(sourceJar)),
         ExePath(out, id), XmlPath(out, id),
         PathOf(SplitLogPath(cfg.logPath, cfg.absoluteOutputDir).createDir))
  }

  /** The descriptor text of a run. */
  function XmlText(cfg: Config): string
  {
    var p := PlanOf(cfg);
    XmlConfig(cfg, p.id, FileName(p.targetJar), SplitLogPath(cfg.logPath, cfg.absoluteOutputDir).xmlValue)
  }

  /** `outputDir.resolve(<verb>.bat)`. */
  function ScriptPath(outputDir: Path, v: Verb): Path
  {
    ResolveText(outputDir, ScriptName(v))
  }

  /** `generateBatchScripts`: the scripts in order; the first failed write ends it. */
  function WriteScripts(fs: Fs, outputDir: Path, id: string, vs: seq<Verb>): (r: Step)
    ensures Valid(fs) ==> Valid(r.fs)
    ensures r.fs.dirs == fs.dirs && fs.files.Keys <= r.fs.files.Keys
    decreases |vs|
  {
    if vs == [] then Ok(fs)
    else match WriteScripts(fs, outputDir, id, vs[..|vs| - 1])
      case Err(e, f) => Err(e, f)
      case Ok(f) => WriteFile(f, ScriptPath(outputDir, vs[|vs| - 1]), Text(Script(vs[|vs| - 1], id)))
  }

  /** Cleanup, then `createDirectories` of the output and jar directories. */
  function Prepare(cfg: Config, fs: Fs): (r: Step)
    ensures Valid(fs) ==> Valid(r.fs)
    ensures var p := PlanOf(cfg); var c := Cleanup(fs, p.outputDir, p.targetJar, p.sourceJar);
      && (c.Err? ==> r == c)
      && (r.Ok? <==> c.Ok? && !BlockedByFile(c.fs.files, p.outputDir) && !BlockedByFile(c.fs.files, p.jarOutputDir))
      && (r.Ok? ==> IsDir(r.fs, p.outputDir) && IsDir(r.fs, p.jarOutputDir) && r.fs.files == c.fs.files)
  {
    var p := PlanOf(cfg);
    match Cleanup(fs, p.outputDir, p.targetJar, p.sourceJar)
    case Err(e, f) => Err(e, f)
    case Ok(f1) =>
      match CreateDirs(f1, p.outputDir)
      case Err(e, f) => Err(e, f)
      case Ok(f2) => CreateDirs(f2, p.jarOutputDir)
  }

  /** The source-jar check and the copy of the jar. */
  function PlaceJar(fs: Fs, p: Plan): (r: Step)
    ensures Valid(fs) ==> Valid(r.fs)
    ensures r.Err? ==> r.fs == fs
    ensures !Exists(fs, p.sourceJar) ==> r == Err(JarNotFound(p.sourceJar), fs)
    ensures r.Ok? <==> Exists(fs, p.sourceJar)
                       && (p.sourceJar == p.targetJar || (!IsDir(fs, p.targetJar) && ParentIsDir(fs, p.targetJar)))
    ensures r.Ok? && p.sourceJar in fs.files ==> p.targetJar in r.fs.files && r.fs.files[p.targetJar] == fs.files[p.sourceJar]
    ensures forall q | q != p.targetJar :: (q in r.fs.files <==> q in fs.files) && (q in fs.files ==> r.fs.files[q] == fs.files[q])
  {
    if !Exists(fs, p.sourceJar) then Err(JarNotFound(p.sourceJar), fs)
    else CopyFile(fs, p.sourceJar, p.targetJar)
  }

  /** Everything after the executable is in place: jar, extra directories, log
      directory, descriptor, scripts. */
  function Generate(cfg: Config, fs: Fs): (r: Step)
    ensures Valid(fs) ==> Valid(r.fs)
  {
    var p := PlanOf(cfg);
    match PlaceJar(fs, p)
    case Err(e, f) => Err(e, f)
    case Ok(f1) =>
      match CopyAdditional(f1, cfg.additionalDirectories, p.outputDir, PathOf(cfg.projectBaseDir))
      case Err(e, f) => Err(e, f)
      case Ok(f2) =>
        match CreateDirs(f2, p.logDir)
        case Err(e, f) => Err(e, f)
        case Ok(f3) =>
          match WriteFile(f3, p.xml, Text(XmlText(cfg)))
          case Err(e, f) => Err(e, f)
          case Ok(f4) => WriteScripts(f4, p.outputDir, p.id, Verbs)
  }

  function Finish(s: Step, url: Option<string>): RunState
  {
    match s
    case Ok(f) => RunState(Success, url, f)
    case Err(e, f) => RunState(Failure(e), url, f)
  }

  /** `execute` on a disk, with the `winswDownloadUrl` field as it was before. */
  function Run(cfg: Config, env: Env, url0: Option<string>, fs: Fs): (r: RunState)
    ensures Valid(fs) ==> Valid(r.fs)
  {
    var p := PlanOf(cfg);
    match Prepare(cfg, fs)
    case Err(e, f) => RunState(Failure(e), url0, f)
    case Ok(f1) =>
      var url := ResolveDownloadUrl(url0, cfg.winswVersion);
      match Provision(f1, p.exe, env.resource, env.fetch, url)
      case Err(e, f) => RunState(Failure(e), Some(url), f)
      case Ok(f2) => Finish(Generate(cfg, f2), Some(url))
  }

  /** A script is written directly into the output directory under its own name. */
  lemma ScriptPathOf(outputDir: Path, v: Verb)
    ensures ScriptPath(outputDir, v) == outputDir + [ScriptName(v)]
  {
    assert NoSeparator(ScriptName(v));
    ResolveName(outputDir, ScriptName(v));
  }

  /** Writing the scripts touches only the scripts' paths. */
  lemma {:induction false} WriteScriptsFrame(fs: Fs, outputDir: Path, id: string, vs: seq<Verb>, p: Path)
    requires forall k | 0 <= k < |vs| :: p != ScriptPath(outputDir, vs[k])
    ensures p in WriteScripts(fs, outputDir, id, vs).fs.files <==> p in fs.files
    ensures p in fs.files ==> WriteScripts(fs, outputDir, id, vs).fs.files[p] == fs.files[p]
    decreases |vs|
  {
    if vs != [] {
      WriteScriptsFrame(fs, outputDir, id, vs[..|vs| - 1], p);
    }
  }

  lemma WriteScriptsNext(fs: Fs, outputDir: Path, id: string, vs: seq<Verb>, k: nat)
    requires k < |vs|
    ensures WriteScripts(fs, outputDir, id, vs[..k + 1])
         == match WriteScripts(fs, outputDir, id, vs[..k])
            case Err(e, f) => Err(e, f)
            case Ok(f) => WriteFile(f, ScriptPath(outputDir, vs[k]), Text(Script(vs[k], id)))
  {
    assert vs[..k + 1][..k] == vs[..k];
  }

  /** Writing the scripts ends at the first failure. */
  lemma {:induction false} WriteScriptsStops(fs: Fs, outputDir: Path, id: string, vs: seq<Verb>, k: nat)
    requires k <= |vs|
    requires WriteScripts(fs, outputDir, id, vs[..k]).Err?
    ensures WriteScripts(fs, outputDir, id, vs) == WriteScripts(fs, outputDir, id, vs[..k])
    decreases |vs| - k
  {
    if k < |vs| {
      assert vs[..k + 1][..k] == vs[..k];
      WriteScriptsStops(fs, outputDir, id, vs, k + 1);
    } else {
      assert vs[..k] == vs;
    }
  }

  /** One script write of `generateBatchScripts`, as a step of `WriteScripts`. */
  lemma WriteScriptsStep(fs: Fs, outputDir: Path, id: string, k: nat, before: Fs, r: Step)
    requires k < |Verbs|
    requires WriteScripts(fs, outputDir, id, Verbs[..k]) == Ok(before)
    requires r == WriteFile(before, ScriptPath(outputDir, Verbs[k]), Text(Script(Verbs[k], id)))
    ensures WriteScripts(fs, outputDir, id, Verbs[..k + 1]) == r
    ensures r.Err? ==> WriteScripts(fs, outputDir, id, Verbs) == r
  {
    WriteScriptsNext(fs, outputDir, id, Verbs, k);
    if r.Err? {
      WriteScriptsStops(fs, outputDir, id, Verbs, k + 1);
    }
  }

  /** Distinct scripts have distinct names. */
  lemma ScriptNameInjective(a: Verb, b: Verb)
    requires a != b
    ensures ScriptName(a) != ScriptName(b)
  {
  }

  lemma ScriptPathInjective(outputDir: Path, a: Verb, b: Verb)
    requires a != b
    ensures ScriptPath(outputDir, a) != ScriptPath(outputDir, b)
  {
    ScriptNameInjective(a, b);
    ScriptPathOf(outputDir, a);
    ScriptPathOf(outputDir, b);
    assert ScriptPath(outputDir, a)[|outputDir|] == ScriptName(a);
    assert ScriptPath(outputDir, b)[|outputDir|] == ScriptName(b);
  }

  lemma SplitLast<T>(s: seq<T>)
    requires |s| > 0
    ensures s == s[..|s| - 1] + [s[|s| - 1]]
  {
  }

  /** Each script of `vs` holds its verb's text. */
  predicate HoldsScripts(files: map<Path, Content>, outputDir: Path, id: string, vs: seq<Verb>)
  {
    forall k | 0 <= k < |vs| ::
      ScriptPath(outputDir, vs[k]) in files && files[ScriptPath(outputDir, vs[k])] == Text(Script(vs[k], id))
  }

  lemma HoldsScriptsSnoc(files: map<Path, Content>, outputDir: Path, id: string, vs: seq<Verb>, v: Verb)
    requires HoldsScripts(files, outputDir, id, vs)
    requires forall k | 0 <= k < |vs| :: vs[k] != v
    ensures HoldsScripts(files[ScriptPath(outputDir, v) := Text(Script(v, id))], outputDir, id, vs + [v])
  {
    var after := files[ScriptPath(outputDir, v) := Text(Script(v, id))];
    forall k | 0 <= k < |vs| + 1
      ensures ScriptPath(outputDir, (vs + [v])[k]) in after
           && after[ScriptPath(outputDir, (vs + [v])[k])] == Text(Script((vs + [v])[k], id))
    {
      if k < |vs| {
        assert (vs + [v])[k] == vs[k];
        ScriptPathInjective(outputDir, vs[k], v);
      }
    }
  }

  /** After writing the scripts without failure, each holds its verb's text. */
  lemma {:induction false} WriteScriptsWrites(fs: Fs, outputDir: Path, id: string, vs: seq<Verb>)
    requires forall i, j | 0 <= i < j < |vs| :: vs[i] != vs[j]
    requires WriteScripts(fs, outputDir, id, vs).Ok?
    ensures HoldsScripts(WriteScripts(fs, outputDir, id, vs).fs.files, outputDir, id, vs)
    decreases |vs|
  {
    if vs != [] {
      var init := vs[..|vs| - 1];
      var last := vs[|vs| - 1];
      var w := WriteScripts(fs, outputDir, id, init);
      var r := WriteScripts(fs, outputDir, id, vs);
      assert w.Ok? && r.fs.files == w.fs.files[ScriptPath(outputDir, last) := Text(Script(last, id))] by {
        assert r == WriteFile(w.fs, ScriptPath(outputDir, last), Text(Script(last, id)));
      }
      assert forall i, j | 0 <= i < j < |init| :: init[i] != init[j] by {
        forall i, j | 0 <= i < j < |init| ensures init[i] != init[j] { assert init[i] == vs[i] && init[j] == vs[j]; }
      }
      assert forall k | 0 <= k < |init| :: init[k] != last by {
        forall k | 0 <= k < |init| ensures init[k] != last { assert init[k] == vs[k]; }
      }
      WriteScriptsWrites(fs, outputDir, id, init);
      HoldsScriptsSnoc(w.fs.files, outputDir, id, init, last);
      SplitLast(vs);
    }
  }

  /** The descriptor is not one of the scripts. */
  lemma XmlIsNoScript(outputDir: Path, id: string, v: Verb)
    requires NoSeparator(id)
    ensures XmlPath(outputDir, id) != ScriptPath(outputDir, v)
  {
    GeneratedPaths(outputDir, id);
    ScriptPathOf(outputDir, v);
    var x, n := id + XmlSuffix, ScriptName(v);
    assert x[|x| - 1] == 'l' && n[|n| - 1] == 't';
    assert XmlPath(outputDir, id)[|outputDir|] == x;
    assert ScriptPath(outputDir, v)[|outputDir|] == n;
  }

  /** The executable is not one of the scripts. */
  lemma ScriptIsNoExe(outputDir: Path, id: string, v: Verb)
    requires NoSeparator(id)
    ensures ExePath(outputDir, id) != ScriptPath(outputDir, v)
  {
    GeneratedPaths(outputDir, id);
    ScriptPathOf(outputDir, v);
    var e, n := id + ExeSuffix, ScriptName(v);
    assert e[|e| - 1] == 'e' && n[|n| - 1] == 't';
    assert ExePath(outputDir, id)[|outputDir|] == e;
    assert ScriptPath(outputDir, v)[|outputDir|] == n;
  }

  /** The five scripts are distinct. */
  lemma VerbsDistinct()
    ensures forall i, j | 0 <= i < j < |Verbs| :: Verbs[i] != Verbs[j]
  {
  }

  /** A successful run leaves the executable, the jar and the log directory in place,
      the descriptor and every script with exactly the text the plugin generates, and
      the download URL resolved in the field. */
  lemma RunSuccess(cfg: Config, env: Env, url0: Option<string>, fs: Fs)
    requires NoSeparator(PlanOf(cfg).id)
    requires Run(cfg, env, url0, fs).outcome.Success?
    ensures var r, p := Run(cfg, env, url0, fs), PlanOf(cfg);
      && Exists(r.fs, p.exe) && Exists(r.fs, p.targetJar) && IsDir(r.fs, p.logDir)
      && p.xml in r.fs.files && r.fs.files[p.xml] == Text(XmlText(cfg))
      && (forall v: Verb :: ScriptPath(p.outputDir, v) in r.fs.files
                                && r.fs.files[ScriptPath(p.outputDir, v)] == Text(Script(v, p.id)))
      && r.downloadUrl == Some(ResolveDownloadUrl(url0, cfg.winswVersion))
  {
    var p := PlanOf(cfg);
    var f1 := Prepare(cfg, fs).fs;
    var url := ResolveDownloadUrl(url0, cfg.winswVersion);
    var f2 := Provision(f1, p.exe, env.resource, env.fetch, url).fs;
    var g1 := PlaceJar(f2, p).fs;
    var g2 := CopyAdditional(g1, cfg.additionalDirectories, p.outputDir, PathOf(cfg.projectBaseDir)).fs;
    var g3 := CreateDirs(g2, p.logDir).fs;
    var g4 := WriteFile(g3, p.xml, Text(XmlText(cfg))).fs;
    var r := WriteScripts(g4, p.outputDir, p.id, Verbs);
    assert Exists(g1, p.exe) && Exists(g1, p.targetJar);
    assert Exists(g2, p.exe) && Exists(g2, p.targetJar);
    assert Exists(r.fs, p.exe) && Exists(r.fs, p.targetJar) && IsDir(r.fs, p.logDir);
    forall k | 0 <= k < |Verbs| ensures p.xml != ScriptPath(p.outputDir, Verbs[k]) {
      XmlIsNoScript(p.outputDir, p.id, Verbs[k]);
    }
    WriteScriptsFrame(g4, p.outputDir, p.id, Verbs, p.xml);
    VerbsDistinct();
    WriteScriptsWrites(g4, p.outputDir, p.id, Verbs);
    forall v: Verb ensures ScriptPath(p.outputDir, v) in r.fs.files && r.fs.files[ScriptPath(p.outputDir, v)] == Text(Script(v, p.id)) {
      var k := Position(v);
    }
  }

  /** Without an output directory the run fails at once, listing it: the disk and
      the download URL field are untouched. */
  lemma RunWithoutOutputDir(cfg: Config, env: Env, url0: Option<string>, fs: Fs)
    requires !IsDir(fs, PlanOf(cfg).outputDir)
    ensures Run(cfg, env, url0, fs) == RunState(Failure(ListingError(fs, PlanOf(cfg).outputDir)), url0, fs)
  {
  }

  /** The download URL field is resolved once the cleanup and the directories
      succeeded, and left alone otherwise. */
  lemma RunDownloadUrl(cfg: Config, env: Env, url0: Option<string>, fs: Fs)
    ensures Prepare(cfg, fs).Ok? ==> Run(cfg, env, url0, fs).downloadUrl == Some(ResolveDownloadUrl(url0, cfg.winswVersion))
    ensures Prepare(cfg, fs).Err? ==> Run(cfg, env, url0, fs).downloadUrl == url0
  {
  }

  /** What is on the disk right after the cleanup and the two `createDirectories`:
      no descriptor, no script, and no stale target jar; no file at the executable's
      path either, so `downloadWinSW` never keeps an old executable file. */
  lemma PreparedIsClean(cfg: Config, fs: Fs)
    requires NoSeparator(PlanOf(cfg).id) && Prepare(cfg, fs).Ok?
    ensures var f, p := Prepare(cfg, fs).fs, PlanOf(cfg);
      && p.exe !in f.files && p.xml !in f.files
      && (forall v: Verb :: ScriptPath(p.outputDir, v) !in f.files)
      && (p.targetJar != p.sourceJar ==> p.targetJar !in f.files)
  {
    var p := PlanOf(cfg);
    var c := Cleanup(fs, p.outputDir, p.targetJar, p.sourceJar);
    var f := Prepare(cfg, fs).fs;
    assert f.files == c.fs.files;
    CleanupClearsChild(fs, p.outputDir, p.targetJar, p.sourceJar, p.id + ExeSuffix);
    CleanupClearsChild(fs, p.outputDir, p.targetJar, p.sourceJar, p.id + XmlSuffix);
    if p.targetJar != p.sourceJar && p.targetJar in f.files {
      CleanupLeavesNoArtifacts(fs, p.outputDir, p.targetJar, p.sourceJar, p.targetJar);
    }
    GeneratedPaths(p.outputDir, p.id);
    CleanupCoversScripts();
    forall v: Verb ensures ScriptPath(p.outputDir, v) !in f.files {
      var k := Position(v);
      ScriptPathOf(p.outputDir, v);
      assert ScriptName(v) == CleanupScriptNames[k];
      CleanupClearsChild(fs, p.outputDir, p.targetJar, p.sourceJar, ScriptName(v));
    }
  }

  /** The executable is always provisioned afresh, from the bundled copy or the
      network, unless a directory sits at its path. */
  lemma ExecutableAlwaysReplaced(cfg: Config, fs: Fs, resource: Option<Content>)
    requires NoSeparator(PlanOf(cfg).id) && Prepare(cfg, fs).Ok?
    requires PlanOf(cfg).exe !in Prepare(cfg, fs).fs.dirs
    ensures ChooseTier(Prepare(cfg, fs).fs, PlanOf(cfg).exe, resource) != KeepExisting
  {
    PreparedIsClean(cfg, fs);
    GeneratedPaths(PlanOf(cfg).outputDir, PlanOf(cfg).id);
  }

  /** The disk once the executable is in place, when the run gets that far. */
  function Provisioned(cfg: Config, env: Env, url0: Option<string>, fs: Fs): Step
  {
    match Prepare(cfg, fs)
    case Err(e, f) => Err(e, f)
    case Ok(f1) => Provision(f1, PlanOf(cfg).exe, env.resource, env.fetch, ResolveDownloadUrl(url0, cfg.winswVersion))
  }

  /** A run whose source jar is missing once the executable is in place fails with
      that error and changes nothing more. */
  lemma RunStopsWithoutJar(cfg: Config, env: Env, url0: Option<string>, fs: Fs)
    requires Provisioned(cfg, env, url0, fs).Ok? && !Exists(Provisioned(cfg, env, url0, fs).fs, PlanOf(cfg).sourceJar)
    ensures Run(cfg, env, url0, fs) == RunState(Failure(JarNotFound(PlanOf(cfg).sourceJar)),
                                                Some(ResolveDownloadUrl(url0, cfg.winswVersion)),
                                                Provisioned(cfg, env, url0, fs).fs)
  {
    var f2 := Provisioned(cfg, env, url0, fs).fs;
    assert PlaceJar(f2, PlanOf(cfg)) == Err(JarNotFound(PlanOf(cfg).sourceJar), f2);
  }

  /** Once the executable is in place there is still no descriptor, no script and no
      stale target jar (unless it is the source jar or the executable itself). */
  lemma ProvisionedIsClean(cfg: Config, env: Env, url0: Option<string>, fs: Fs)
    requires NoSeparator(PlanOf(cfg).id) && Provisioned(cfg, env, url0, fs).Ok?
    ensures var p, f := PlanOf(cfg), Provisioned(cfg, env, url0, fs).fs;
      && p.xml !in f.files
      && (forall v: Verb :: ScriptPath(p.outputDir, v) !in f.files)
      && (p.targetJar != p.sourceJar && p.targetJar != p.exe ==> p.targetJar !in f.files)
  {
    var p := PlanOf(cfg);
    var f1 := Prepare(cfg, fs).fs;
    var f2 := Provision(f1, p.exe, env.resource, env.fetch, ResolveDownloadUrl(url0, cfg.winswVersion)).fs;
    assert Provisioned(cfg, env, url0, fs).fs == f2;
    PreparedIsClean(cfg, fs);
    GeneratedPaths(p.outputDir, p.id);
    assert p.xml != p.exe;
    assert p.xml !in f2.files;
    forall v: Verb ensures ScriptPath(p.outputDir, v) !in f2.files {
      ScriptIsNoExe(p.outputDir, p.id, v);
    }
  }

  /** So a run without its source jar generates no descriptor, no script and leaves
      no target jar behind. */
  lemma RunWithoutJar(cfg: Config, env: Env, url0: Option<string>, fs: Fs)
    requires NoSeparator(PlanOf(cfg).id)
    requires Provisioned(cfg, env, url0, fs).Ok? && !Exists(Provisioned(cfg, env, url0, fs).fs, PlanOf(cfg).sourceJar)
    ensures var p, r := PlanOf(cfg), Run(cfg, env, url0, fs);
      && r.outcome == Failure(JarNotFound(p.sourceJar))
      && p.xml !in r.fs.files
      && (forall v: Verb :: ScriptPath(p.outputDir, v) !in r.fs.files)
      && (p.targetJar != p.sourceJar && p.targetJar != p.exe ==> p.targetJar !in r.fs.files)
  {
    RunStopsWithoutJar(cfg, env, url0, fs);
    ProvisionedIsClean(cfg, env, url0, fs);
  }

  /** Whatever the disk and the environment, two successful runs with the same
      parameters generate the same descriptor and the same scripts. */
  lemma RunOutputsAgree(cfg: Config, env1: Env, env2: Env, url1: Option<string>, url2: Option<string>, fs1: Fs, fs2: Fs)
    requires NoSeparator(PlanOf(cfg).id)
    requires Run(cfg, env1, url1, fs1).outcome.Success? && Run(cfg, env2, url2, fs2).outcome.Success?
    ensures var p, a, b := PlanOf(cfg), Run(cfg, env1, url1, fs1).fs, Run(cfg, env2, url2, fs2).fs;
      && p.xml in a.files && p.xml in b.files && a.files[p.xml] == b.files[p.xml]
      && forall v: Verb :: ScriptPath(p.outputDir, v) in a.files && ScriptPath(p.outputDir, v) in b.files
                          && a.files[ScriptPath(p.outputDir, v)] == b.files[ScriptPath(p.outputDir, v)]
  {
    RunSuccess(cfg, env1, url1, fs1);
    RunSuccess(cfg, env2, url2, fs2);
  }
}
