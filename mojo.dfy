/** The goal object itself: its parameters, the `winswDownloadUrl` field that
    `execute` updates, and the disk it works on. Each method is proved to do what
    the corresponding specification function says. */
module Mojo {
  import opened Wrappers
  import opened Strings
  import opened Paths
  import opened FileSystem
  import opened Naming
  import opened Parameters
  import opened Descriptor
  import opened Scripts
  import opened Artifacts
  import opened Provisioning
  import opened Mirror
  import opened Pipeline

  /** The buffered writer's output: the lines in order. */
  method RenderLines(lines: seq<XmlLine>) returns (text: string)
    ensures text == Render(lines)
  {
    text := "";
    for i := 0 to |lines|
      invariant text == Render(lines[..i])
    {
      RenderSnoc(lines[..i], lines[i]);
      assert lines[..i + 1] == lines[..i] + [lines[i]];
      text := text + LineText(lines[i]);
    }
    assert lines[..|lines|] == lines;
  }

  class GenerateExeMojo {
    const cfg: Config
    const env: Env
    var winswDownloadUrl: Option<string>
    const store: FileStore

    constructor (cfg: Config, env: Env, winswDownloadUrl: Option<string>, store: FileStore)
      ensures this.cfg == cfg && this.env == env && this.winswDownloadUrl == winswDownloadUrl && this.store == store
    {
      this.cfg := cfg;
      this.env := env;
      this.winswDownloadUrl := winswDownloadUrl;
      this.store := store;
    }

    /** Deletes the regular files of `outputDir` whose name ends in `ext`. */
    method DeleteMatching(outputDir: Path, ext: string)
      modifies store
      ensures store.State() == RemoveAll(old(store.State()), Matching(old(store.files), outputDir, ext))
    {
      var matched := set p | p in store.files && IsChildOf(p, outputDir) && HasSuffix(FileName(p), ext);
      var pending := matched;
      while pending != {}
        invariant pending <= matched && matched <= old(store.files).Keys
        invariant store.files == old(store.files) - (matched - pending)
        invariant store.dirs == old(store.dirs)
        decreases pending
      {
        var file :| file in pending;
        store.Delete(file);
        pending := pending - {file};
      }
    }

    method CleanupPreviousArtifacts(outputPath: Path, jarOutputPath: Path, serviceId: string, jarName: string)
      returns (err: Option<IoError>)
      modifies store
      ensures StepOf(err, store.State())
           == Cleanup(old(store.State()), outputPath, ResolveText(jarOutputPath, jarName), PathOf(cfg.jarPath))
    {
      if !store.IsDirectory(outputPath) {
        return Some(ListingError(store.State(), outputPath));
      }
      DeleteMatching(outputPath, ExeSuffix);
      DeleteMatching(outputPath, XmlSuffix);
      var scriptNames := CleanupScriptNames;
      ghost var cleaned := store.State();
      for i := 0 to |scriptNames|
        invariant store.State() == DeleteNamed(cleaned, outputPath, scriptNames[..i])
      {
        var scriptPath := ResolveText(outputPath, scriptNames[i]);
        if scriptPath in store.files {
          store.Delete(scriptPath);
        }
        assert scriptNames[..i + 1][..i] == scriptNames[..i];
      }
      assert scriptNames[..|scriptNames|] == scriptNames;
      var targetJarPath := ResolveText(jarOutputPath, jarName);
      var sourceJarPath := PathOf(cfg.jarPath);
      if targetJarPath != sourceJarPath && targetJarPath in store.files {
        store.Delete(targetJarPath);
      }
      return None;
    }
  
    method DownloadWinSW(exePath: Path) returns (err: Option<IoError>)
      requires winswDownloadUrl.Some?
      modifies store
      ensures StepOf(err, store.State())
           == Provision(old(store.State()), exePath, env.resource, env.fetch, winswDownloadUrl.value)
    {
      if store.PathExists(exePath) {
        return None;
      }
      if env.resource.Some? {
        err := store.Write(exePath, env.resource.value);
        return;
      }
      var download := env.fetch(winswDownloadUrl.value);
      if download.None? {
        return Some(DownloadFailed(winswDownloadUrl.value));
      }
      err := store.Write(exePath, download.value);
    }

    /** Creates the target of every walked directory, skipping those that fail. */
    method CreateWalkedDirectories(source: Path, target: Path) returns (ghost walked: set<Path>)
      modifies store
      ensures walked == SourceDirs(old(store.State()), source)
      ensures store.files == old(store.files)
      ensures store.dirs == old(store.dirs) + CreatedFor(old(store.files), walked, source, target)
    {
      var pending := SourceDirs(store.State(), source);
      walked := pending;
      while pending != {}
        invariant pending <= walked
        invariant store.files == old(store.files)
        invariant store.dirs == old(store.dirs) + CreatedFor(old(store.files), walked - pending, source, target)
        decreases pending
      {
        var dir :| dir in pending;
        ghost var done := walked - pending;
        var _ := store.CreateDirectories(Dst(source, target, dir));
        pending := pending - {dir};
        assert walked - pending == done + {dir};
        CreatedForAdd(old(store.files), done, dir, source, target);
      }
    }

    /** Copies every walked file, with its contents as the walk began, skipping
        those that fail. */
    method CopyWalkedFiles(source: Path, target: Path, snapshot: map<Path, Content>, walked: set<Path>)
      requires walked <= snapshot.Keys && forall f | f in walked :: Under(f, source)
      modifies store
      ensures store.State() == Copied(old(store.State()), snapshot, walked, source, target)
    {
      ghost var fs0 := store.State();
      var pending := walked;
      ghost var done: set<Path> := {};
      CopiedNothing(fs0, snapshot, source, target);
      while pending != {}
        invariant done + pending == walked
        invariant store.State() == Copied(fs0, snapshot, done, source, target)
        decreases pending
      {
        var file :| file in pending;
        var err := store.Write(Dst(source, target, file), snapshot[file]);
        CopyStep(fs0, snapshot, done, file, source, target);
        pending := pending - {file};
        done := done + {file};
      }
    }

    method CopyDirectory(source: Path, target: Path)
      modifies store
      ensures store.State() == MirrorTree(old(store.State()), source, target)
    {
      var snapshot := store.files;
      var files := SourceFiles(store.State(), source);
      assert files <= snapshot.Keys;
      ghost var _ := CreateWalkedDirectories(source, target);
      CopyWalkedFiles(source, target, snapshot, files);
    }
  
    method CopyAdditionalDirectories(outputPath: Path) returns (err: Option<IoError>)
      modifies store
      ensures StepOf(err, store.State())
           == CopyAdditional(old(store.State()), cfg.additionalDirectories, outputPath, PathOf(cfg.projectBaseDir))
    {
      if cfg.additionalDirectories.None? || cfg.additionalDirectories.value == [] {
        return None;
      }
      var dirs := cfg.additionalDirectories.value;
      var projectBaseDir := PathOf(cfg.projectBaseDir);
      var rootDir := Parent(outputPath);
      ghost var fs0 := store.State();
      for i := 0 to |dirs|
        invariant MirrorAll(fs0, rootDir, projectBaseDir, dirs[..i]) == Ok(store.State())
      {
        assert dirs[..i + 1][..i] == dirs[..i];
        ghost var before := store.State();
        var dir := dirs[i];
        var sourceDir := JoinText(projectBaseDir, dir);
        if store.IsDirectory(sourceDir) {
          if rootDir.None? {
            assert MirrorAll(fs0, rootDir, projectBaseDir, dirs[..i + 1]) == Err(NullParent, store.State());
            MirrorAllStops(fs0, rootDir, projectBaseDir, dirs, i + 1);
            return Some(NullParent);
          }
          var targetDir := ResolveText(rootDir.value, dir);
          err := store.CreateDirectories(targetDir);
          if err.Some? {
            assert MirrorAll(fs0, rootDir, projectBaseDir, dirs[..i + 1]) == StepOf(err, store.State());
            MirrorAllStops(fs0, rootDir, projectBaseDir, dirs, i + 1);
            return;
          }
          CopyDirectory(sourceDir, targetDir);
        }
        assert MirrorOne(before, rootDir, projectBaseDir, dir) == Ok(store.State());
      }
      assert dirs[..|dirs|] == dirs;
      return None;
    }

    method GenerateXmlConfig(xmlPath: Path, jarPath: Path, actualServiceId: string, logPathValue: string)
      returns (err: Option<IoError>)
      modifies store
      ensures StepOf(err, store.State())
           == WriteFile(old(store.State()), xmlPath, Text(XmlConfig(cfg, actualServiceId, FileName(jarPath), logPathValue)))
    {
      var arguments := Arguments(cfg.additionalJvmOptions, FileName(jarPath), cfg.additionalAppArgs);
      var text := RenderLines(DescriptorLines(actualServiceId, JavaText(cfg.serviceName),
                                              JavaText(cfg.serviceDescription), JavaText(cfg.javaPath), arguments));
      err := store.Write(xmlPath, Text(text));
    }

    /** `Files.write` of one script. */
    method GenerateBatchScript(scriptPath: Path, content: string) returns (err: Option<IoError>)
      modifies store
      ensures StepOf(err, store.State()) == WriteFile(old(store.State()), scriptPath, Text(content))
    {
      err := store.Write(scriptPath, Text(content));
    }

    /** `generateBatchScripts`: one `generateBatchScript` call per verb, in the
        order install, uninstall, start, stop, restart; the first failed write ends it. */
    method GenerateBatchScripts(outputPath: Path, serviceId: string) returns (err: Option<IoError>)
      modifies store
      ensures StepOf(err, store.State()) == WriteScripts(old(store.State()), outputPath, serviceId, Verbs)
    {
      ghost var fs0 := store.State();
      assert Verbs[..0] == [];
      for k := 0 to |Verbs|
        invariant WriteScripts(fs0, outputPath, serviceId, Verbs[..k]) == Ok(store.State())
      {
        ghost var before := store.State();
        err := GenerateBatchScript(ScriptPath(outputPath, Verbs[k]), Script(Verbs[k], serviceId));
        WriteScriptsStep(fs0, outputPath, serviceId, k, before, StepOf(err, store.State()));
        if err.Some? {
          return;
        }
      }
      assert Verbs[..|Verbs|] == Verbs;
      return None;
    }

    /** The goal: every step in order, any failure ending the run as a failure
        that wraps it. */
    method Execute() returns (outcome: Outcome)
      modifies this, store
      ensures RunState(outcome, winswDownloadUrl, store.State())
           == Run(cfg, env, old(winswDownloadUrl), old(store.State()))
    {
      ghost var fs0 := store.State();
      ghost var p := PlanOf(cfg);
      var actualServiceId := cfg.serviceId;
      if cfg.projectName.Some? && cfg.projectName.value != "" {
        actualServiceId := cfg.projectName.value;
      }
      var outputPath := PathOf(cfg.outputDir);
      var jarOutputPath := PathOf(cfg.jarOutputDir);
      var jarName := FileName(PathOf(cfg.jarPath));
      var err := CleanupPreviousArtifacts(outputPath, jarOutputPath, actualServiceId, jarName);
      if err.Some? {
        return Failure(err.value);
      }
      err := store.CreateDirectories(outputPath);
      if err.Some? {
        return Failure(err.value);
      }
      err := store.CreateDirectories(jarOutputPath);
      if err.Some? {
        return Failure(err.value);
      }
      ghost var fs1 := store.State();
      assert Prepare(cfg, fs0) == Ok(fs1);
      var exePath := ResolveText(outputPath, actualServiceId + ".exe");
      var xmlPath := ResolveText(outputPath, actualServiceId + ".xml");
      var targetJarPath := ResolveText(jarOutputPath, jarName);
      if !Present(winswDownloadUrl) {
        winswDownloadUrl := Some(DefaultDownloadUrl(cfg.winswVersion));
      }
      assert winswDownloadUrl == Some(ResolveDownloadUrl(old(winswDownloadUrl), cfg.winswVersion));
      err := DownloadWinSW(exePath);
      if err.Some? {
        return Failure(err.value);
      }
      ghost var fs2 := store.State();
      assert Provision(fs1, p.exe, env.resource, env.fetch, winswDownloadUrl.value) == Ok(fs2);
      var sourceJarPath := PathOf(cfg.jarPath);
      if !store.PathExists(sourceJarPath) {
        return Failure(JarNotFound(sourceJarPath));
      }
      err := store.Copy(sourceJarPath, targetJarPath);
      if err.Some? {
        return Failure(err.value);
      }
      ghost var f1 := store.State();
      assert PlaceJar(fs2, p) == Ok(f1);
      err := CopyAdditionalDirectories(outputPath);
      if err.Some? {
        return Failure(err.value);
      }
      var logPathValue;
      var actualLogPath;
      if Contains(cfg.logPath, BaseToken) {
        var resolvedLogPath := ReplaceAll(cfg.logPath, BaseToken, cfg.absoluteOutputDir);
        actualLogPath := PathOf(resolvedLogPath);
        logPathValue := cfg.logPath;
      } else {
        actualLogPath := PathOf(cfg.logPath);
        logPathValue := cfg.logPath;
      }
      assert actualLogPath == p.logDir;
      err := store.CreateDirectories(actualLogPath);
      if err.Some? {
        return Failure(err.value);
      }
      err := GenerateXmlConfig(xmlPath, targetJarPath, actualServiceId, logPathValue);
      if err.Some? {
        return Failure(err.value);
      }
      err := GenerateBatchScripts(outputPath, actualServiceId);
      if err.Some? {
        return Failure(err.value);
      }
      return Success;
    }
  }
}
