/** `cleanupPreviousArtifacts`: what a run deletes before it generates anything. */
module Artifacts {
  import opened Strings
  import opened Paths
  import opened FileSystem
  import opened Naming
  import Scripts

  /** The scripts removed by name, as listed by the cleanup. */
  const CleanupScriptNames := ["install.bat", "uninstall.bat", "start.bat", "stop.bat", "restart.bat"]

  /** The regular files directly in `dir` whose name matches the glob `*<ext>`. */
  function Matching(files: map<Path, Content>, dir: Path, ext: string): set<Path>
  {
    set p | p in files && IsChildOf(p, dir) && HasSuffix(FileName(p), ext)
  }

  function RemoveAll(fs: Fs, ps: set<Path>): (r: Fs)
    ensures Valid(fs) ==> Valid(r)
  {
    Fs(fs.files - ps, fs.dirs)
  }

  /** `dir.resolve(name)` deleted when it exists, for each name in turn. */
  function DeleteNamed(fs: Fs, dir: Path, names: seq<string>): (r: Fs)
    ensures Valid(fs) ==> Valid(r)
    decreases |names|
  {
    if names == [] then fs
    else
      var before := DeleteNamed(fs, dir, names[..|names| - 1]);
      var p := ResolveText(dir, names[|names| - 1]);
      if p in before.files then DeleteFile(before, p) else before
  }

  /** The target jar is deleted when it exists, unless it is the source jar itself. */
  function DeleteStaleJar(fs: Fs, targetJar: Path, sourceJar: Path): (r: Fs)
    ensures Valid(fs) ==> Valid(r)
  {
    if targetJar != sourceJar && targetJar in fs.files then DeleteFile(fs, targetJar) else fs
  }

  /** Listing a directory that does not exist, or is a file, throws. */
  function ListingError(fs: Fs, dir: Path): IoError
  {
    if dir in fs.files then NotADirectory(dir) else NoSuchFile(dir)
  }

  /** The cleanup in the order the plugin performs it: every `*.exe`, every `*.xml`,
      the five scripts, then the stale jar. */
  function Cleanup(fs: Fs, outputDir: Path, targetJar: Path, sourceJar: Path): (r: Step)
    ensures Valid(fs) ==> Valid(r.fs)
    ensures r.Ok? <==> IsDir(fs, outputDir)
    ensures r.Err? ==> r.fs == fs && r.error == ListingError(fs, outputDir)
    ensures r.fs.dirs == fs.dirs && r.fs.files.Keys <= fs.files.Keys
  {
    if !IsDir(fs, outputDir) then Err(ListingError(fs, outputDir), fs)
    else
      var f2 := RemoveGlobs(fs, outputDir);
      var f3 := DeleteNamed(f2, outputDir, CleanupScriptNames);
      assert f3.dirs == fs.dirs && f3.files.Keys <= fs.files.Keys by { DeleteNamedRemoves(f2, outputDir, CleanupScriptNames); }
      Ok(DeleteStaleJar(f3, targetJar, sourceJar))
  }

  function NamedPaths(dir: Path, names: seq<string>): set<Path>
  {
    set k | 0 <= k < |names| :: ResolveText(dir, names[k])
  }

  /** Deleting by name removes exactly the named paths and touches nothing else. */
  lemma {:induction false} DeleteNamedRemoves(fs: Fs, dir: Path, names: seq<string>)
    ensures DeleteNamed(fs, dir, names).files == fs.files - NamedPaths(dir, names)
    ensures DeleteNamed(fs, dir, names).dirs == fs.dirs
    decreases |names|
  {
    if names != [] {
      var init := names[..|names| - 1];
      DeleteNamedRemoves(fs, dir, init);
      var p := ResolveText(dir, names[|names| - 1]);
      assert NamedPaths(dir, names) == NamedPaths(dir, init) + {p} by {
        forall q | q in NamedPaths(dir, names) ensures q in NamedPaths(dir, init) + {p} {
          var k :| 0 <= k < |names| && q == ResolveText(dir, names[k]);
          if k < |names| - 1 { assert names[k] == init[k]; }
        }
        forall q | q in NamedPaths(dir, init) ensures q in NamedPaths(dir, names) {
          var k :| 0 <= k < |init| && q == ResolveText(dir, init[k]);
          assert init[k] == names[k];
        }
      }
    }
  }

  /** Everything a successful cleanup deletes, in one definition. */
  function Doomed(files: map<Path, Content>, outputDir: Path, targetJar: Path, sourceJar: Path): set<Path>
  {
    set p | p in files
          && ((IsChildOf(p, outputDir) && (HasSuffix(FileName(p), ExeSuffix) || HasSuffix(FileName(p), XmlSuffix)))
              || p in NamedPaths(outputDir, CleanupScriptNames)
              || (p == targetJar && targetJar != sourceJar))
  }

  /** A successful cleanup removes exactly the doomed files, keeps every other file
      with its contents, and leaves the directories alone. */
  lemma CleanupRemovesExactly(fs: Fs, outputDir: Path, targetJar: Path, sourceJar: Path)
    requires IsDir(fs, outputDir)
    ensures Cleanup(fs, outputDir, targetJar, sourceJar).fs.files == fs.files - Doomed(fs.files, outputDir, targetJar, sourceJar)
    ensures Cleanup(fs, outputDir, targetJar, sourceJar).fs.dirs == fs.dirs
  {
    var r := Cleanup(fs, outputDir, targetJar, sourceJar).fs;
    var doomed := Doomed(fs.files, outputDir, targetJar, sourceJar);
    CleanupFiles(fs, outputDir, targetJar, sourceJar);
    assert r.files.Keys == fs.files.Keys - doomed by {
      forall p ensures p in r.files <==> p in fs.files && p !in doomed {
        DoomedMember(fs, outputDir, targetJar, sourceJar, p);
      }
    }
  }

  /** The union of what the four stages delete. */
  function CleanupRemoved(fs: Fs, outputDir: Path, targetJar: Path, sourceJar: Path): set<Path>
  {
    Matching(fs.files, outputDir, ExeSuffix) + Matching(fs.files, outputDir, XmlSuffix)
      + NamedPaths(outputDir, CleanupScriptNames) + (if targetJar != sourceJar then {targetJar} else {})
  }

  lemma DoomedMember(fs: Fs, outputDir: Path, targetJar: Path, sourceJar: Path, p: Path)
    ensures p in Doomed(fs.files, outputDir, targetJar, sourceJar)
        <==> p in fs.files && p in CleanupRemoved(fs, outputDir, targetJar, sourceJar)
  {
  }

  /** The two glob deletions, `*.exe` then `*.xml`. */
  function RemoveGlobs(fs: Fs, outputDir: Path): Fs
  {
    var f1 := RemoveAll(fs, Matching(fs.files, outputDir, ExeSuffix));
    RemoveAll(f1, Matching(f1.files, outputDir, XmlSuffix))
  }

  lemma RemoveGlobsFiles(fs: Fs, outputDir: Path)
    ensures RemoveGlobs(fs, outputDir).files
         == fs.files - (Matching(fs.files, outputDir, ExeSuffix) + Matching(fs.files, outputDir, XmlSuffix))
    ensures RemoveGlobs(fs, outputDir).dirs == fs.dirs
  {
    var f1 := RemoveAll(fs, Matching(fs.files, outputDir, ExeSuffix));
    assert Matching(f1.files, outputDir, XmlSuffix) == Matching(fs.files, outputDir, XmlSuffix) * f1.files.Keys;
  }

  lemma CleanupFiles(fs: Fs, outputDir: Path, targetJar: Path, sourceJar: Path)
    requires IsDir(fs, outputDir)
    ensures forall p :: p in Cleanup(fs, outputDir, targetJar, sourceJar).fs.files
                   <==> p in fs.files && p !in CleanupRemoved(fs, outputDir, targetJar, sourceJar)
    ensures forall p | p in Cleanup(fs, outputDir, targetJar, sourceJar).fs.files ::
              Cleanup(fs, outputDir, targetJar, sourceJar).fs.files[p] == fs.files[p]
  {
    var f2 := RemoveGlobs(fs, outputDir);
    RemoveGlobsFiles(fs, outputDir);
    var f3 := DeleteNamed(f2, outputDir, CleanupScriptNames);
    DeleteNamedRemoves(f2, outputDir, CleanupScriptNames);
    var r := DeleteStaleJar(f3, targetJar, sourceJar);
    assert Cleanup(fs, outputDir, targetJar, sourceJar).fs == r;
  }

  /** After a successful cleanup no executable, descriptor or script remains in the
      output directory, and the target jar is gone unless it is the source jar. */
  lemma CleanupLeavesNoArtifacts(fs: Fs, outputDir: Path, targetJar: Path, sourceJar: Path, p: Path)
    requires IsDir(fs, outputDir) && p in Cleanup(fs, outputDir, targetJar, sourceJar).fs.files
    ensures IsChildOf(p, outputDir) ==> !HasSuffix(FileName(p), ExeSuffix) && !HasSuffix(FileName(p), XmlSuffix)
    ensures forall k | 0 <= k < |CleanupScriptNames| :: p != ResolveText(outputDir, CleanupScriptNames[k])
    ensures p == targetJar ==> targetJar == sourceJar
  {
    CleanupRemovesExactly(fs, outputDir, targetJar, sourceJar);
  }

  /** In particular, a file named like an executable, a descriptor or a script is
      gone from the output directory. */
  lemma CleanupClearsChild(fs: Fs, outputDir: Path, targetJar: Path, sourceJar: Path, name: string)
    requires IsDir(fs, outputDir)
    requires HasSuffix(name, ExeSuffix) || HasSuffix(name, XmlSuffix) || name in CleanupScriptNames
    ensures outputDir + [name] !in Cleanup(fs, outputDir, targetJar, sourceJar).fs.files
  {
    var p := outputDir + [name];
    assert IsChildOf(p, outputDir) && FileName(p) == name;
    if name in CleanupScriptNames {
      var k :| 0 <= k < |CleanupScriptNames| && CleanupScriptNames[k] == name;
      assert NoSeparator(name);
      ResolveName(outputDir, name);
      assert p in NamedPaths(outputDir, CleanupScriptNames);
    }
    CleanupRemovesExactly(fs, outputDir, targetJar, sourceJar);
  }

  /** Cleaning up twice is cleaning up once. */
  lemma CleanupIdempotent(fs: Fs, outputDir: Path, targetJar: Path, sourceJar: Path)
    ensures var r := Cleanup(fs, outputDir, targetJar, sourceJar);
      Cleanup(r.fs, outputDir, targetJar, sourceJar) == Ok(r.fs) || r.Err?
  {
    var r := Cleanup(fs, outputDir, targetJar, sourceJar);
    if r.Ok? {
      CleanupRemovesExactly(fs, outputDir, targetJar, sourceJar);
      CleanupRemovesExactly(r.fs, outputDir, targetJar, sourceJar);
      assert Doomed(r.fs.files, outputDir, targetJar, sourceJar) == {};
      assert r.fs.files - {} == r.fs.files;
    }
  }

  /** The cleanup deletes by name exactly the scripts that are generated. */
  lemma CleanupCoversScripts()
    ensures |CleanupScriptNames| == |Scripts.Verbs|
    ensures forall k | 0 <= k < |CleanupScriptNames| :: CleanupScriptNames[k] == Scripts.ScriptName(Scripts.Verbs[k])
  {
  }
}
