# WinSW executable generator, modelled in Dafny

This project models the `generate-exe` goal of the WinSW Maven plugin. The goal
packages a Java application as a Windows service. It produces:

- the WinSW wrapper executable `<id>.exe`;
- the WinSW service descriptor `<id>.xml`;
- a copy of the application jar;
- mirrored auxiliary directories;
- five batch scripts (`install`, `uninstall`, `start`, `stop`, `restart`).

Before generating anything it removes what an earlier run left behind.

The file system is an abstract state: regular files with their contents
(`map<Path, Content>`) and a set of directories, where a `Path` is a sequence of
name elements. Each step of the goal is a pure function from one state to the
next, returning `Ok(fs)` or `Err(error, fs)`. The goal object
(`Mojo.GenerateExeMojo`) is a class. It holds the mutable `winswDownloadUrl`
field and a `FileStore` object that its methods update in place, and each of its
methods is proved to end in the state the corresponding function describes.

| file | component |
|---|---|
| `wrappers.dfy` | `Option` for Java's nullable parameters; how Java renders `null` in a string |
| `parameters.dfy` | the goal's resolved parameters |
| `strings.dfy` | `contains` and `replace` of `java.lang.String` |
| `paths.dfy` | `Paths.get`, `resolve`, `getFileName`, `getParent` |
| `filesystem.dfy` | the disk as a value (`Fs`) and as an object (`FileStore`): create directories, write, copy, delete |
| `naming.dfy` | service id, file names, default download URL, the `%BASE%` log-path split |
| `artifacts.dfy` | the cleanup of earlier artifacts |
| `provisioning.dfy` | the three-tier choice of where the executable comes from |
| `mirror.dfy` | copying additional directories next to the output directory |
| `descriptor.dfy` | the `<arguments>` value and the XML descriptor |
| `scripts.dfy` | the five batch scripts |
| `pipeline.dfy` | the whole goal as one function `Run`, with its lemmas |
| `mojo.dfy` | the goal object with its imperative methods, proved against `Run` and its parts |

Some behaviours of the code that the model keeps:

- The cleanup lists the output directory before `execute` creates it (line 95,
  then line 98). So a run on a disk where the output directory does not exist
  yet fails at once (`Pipeline.RunWithoutOutputDir`).
- The descriptor's `<logpath>` is always `%base%\..\logs\out` (line 289). The
  log-path value handed to `generateXmlConfig` (line 156) is ignored, whatever
  the configured log path is. The configured log path only decides which
  directory is created (lines 137-150).
- A failed `createDirectories` of a mirror target (line 238), or an output
  directory without a parent (lines 228 and 235), ends the run like any other
  exception. Only the copy errors of single entries inside the walk are caught
  and logged (lines 259-261); the model skips such an entry and goes on.

## Model

| member | source | states |
|---|---|---|
| `Naming.EffectiveServiceId` | src/main/java/com/winsw/mavenplugin/GenerateExeMojo.java:82-87 | a non-null, non-empty `projectName` is the id; otherwise `serviceId` is |
| `Naming.ExeName` | src/main/java/com/winsw/mavenplugin/GenerateExeMojo.java:102 | the executable's name is the id followed by `.exe` |
| `Naming.XmlName` | src/main/java/com/winsw/mavenplugin/GenerateExeMojo.java:103 | the descriptor's name is the id followed by `.xml` |
| `Naming.NamesDistinct` | src/main/java/com/winsw/mavenplugin/GenerateExeMojo.java:102-103 | distinct ids give distinct names; the executable and the descriptor never share a name |
| `Naming.GeneratedPaths` | src/main/java/com/winsw/mavenplugin/GenerateExeMojo.java:105-106 | for an id without separators, the two files are `outputDir/<id>.exe` and `outputDir/<id>.xml`, and they differ |
| `Naming.DefaultDownloadUrl` | src/main/java/com/winsw/mavenplugin/GenerateExeMojo.java:113 | the release URL starts with the WinSW download prefix, ends with `/WinSW.NET4.exe`, and has the version between them |
| `Naming.ResolveDownloadUrl` | src/main/java/com/winsw/mavenplugin/GenerateExeMojo.java:112-114 | a configured non-empty URL is kept; a null or empty one becomes the version's release URL; the result is never empty |
| `Naming.ResolvedUrlIsSticky` | src/main/java/com/winsw/mavenplugin/GenerateExeMojo.java:112-114 | once stored in the field, the URL survives a later resolution whatever the version |
| `Naming.SplitLogPath` | src/main/java/com/winsw/mavenplugin/GenerateExeMojo.java:137-148 | the value for the XML is always the configured log path; the directory to create has every `%BASE%` replaced by the absolute output path; without the token both equal the log path |
| `Strings.ReplaceAllWithoutToken` | src/main/java/com/winsw/mavenplugin/GenerateExeMojo.java:141 | `replace` leaves a string without the token unchanged |
| `Strings.ReplaceAllBySelf` | src/main/java/com/winsw/mavenplugin/GenerateExeMojo.java:141 | `replace` touches only occurrences of the token: replacing it by itself gives the string back |
| `Strings.ReplaceAllFront` | src/main/java/com/winsw/mavenplugin/GenerateExeMojo.java:141 | a token at the front is always replaced |
| `Paths.ResolveName` | src/main/java/com/winsw/mavenplugin/GenerateExeMojo.java:105-109 | resolving a plain file name against a directory appends exactly that element, whose file name it is |
| `FileSystem.CreateDirs` | src/main/java/com/winsw/mavenplugin/GenerateExeMojo.java:98-99 | `createDirectories` succeeds exactly when no leading part of the path is a regular file; it then makes the path a directory and adds only its ancestors; files are untouched; failure changes nothing |
| `FileSystem.CreateDirsTree` | src/main/java/com/winsw/mavenplugin/GenerateExeMojo.java:98-99 | creating directories keeps every entry inside a directory |
| `FileSystem.WriteFile` | src/main/java/com/winsw/mavenplugin/GenerateExeMojo.java:385 | a write succeeds exactly when the path is no directory and its parent is one; it then sets that one file's contents |
| `FileSystem.CopyFile` | src/main/java/com/winsw/mavenplugin/GenerateExeMojo.java:128 | a copy with `REPLACE_EXISTING` needs an existing source; onto itself it does nothing; it copies a file's contents to the target and changes no other path |
| `FileSystem.DeleteFile` | src/main/java/com/winsw/mavenplugin/GenerateExeMojo.java:403 | deleting a file removes exactly that path and keeps every other file's contents |
| `FileSystem.FileStore.IsDirectory` | src/main/java/com/winsw/mavenplugin/GenerateExeMojo.java:233 | `isDirectory` on the object agrees with the value model |
| `FileSystem.FileStore.PathExists` | src/main/java/com/winsw/mavenplugin/GenerateExeMojo.java:420 | `exists` on the object agrees with the value model |
| `FileSystem.FileStore.CreateDirectories` | src/main/java/com/winsw/mavenplugin/GenerateExeMojo.java:98 | the in-place `createDirectories` ends in the state and error of `CreateDirs` |
| `FileSystem.FileStore.Write` | src/main/java/com/winsw/mavenplugin/GenerateExeMojo.java:385 | the in-place write ends in the state and error of `WriteFile` |
| `FileSystem.FileStore.Copy` | src/main/java/com/winsw/mavenplugin/GenerateExeMojo.java:128 | the in-place copy ends in the state and error of `CopyFile` |
| `FileSystem.FileStore.Delete` | src/main/java/com/winsw/mavenplugin/GenerateExeMojo.java:403 | the in-place delete ends in the state of `DeleteFile` |
| `Artifacts.Cleanup` | src/main/java/com/winsw/mavenplugin/GenerateExeMojo.java:399-433 | cleanup succeeds exactly when the output directory exists; on failure nothing changes and the error names the listing; it only removes files and never touches directories |
| `Artifacts.RemoveGlobsFiles` | src/main/java/com/winsw/mavenplugin/GenerateExeMojo.java:400-414 | the two glob passes remove exactly the files directly in the output directory whose names end in `.exe` or `.xml` |
| `Artifacts.DeleteNamedRemoves` | src/main/java/com/winsw/mavenplugin/GenerateExeMojo.java:416-424 | deleting scripts by name removes exactly the named paths that exist, and nothing else |
| `Artifacts.CleanupFiles` | src/main/java/com/winsw/mavenplugin/GenerateExeMojo.java:399-433 | after cleanup a file remains exactly when it is not among the four stages' targets, with its contents unchanged |
| `Artifacts.CleanupRemovesExactly` | src/main/java/com/winsw/mavenplugin/GenerateExeMojo.java:399-433 | a successful cleanup removes exactly the `*.exe` and `*.xml` files of the output directory, the five scripts, and the target jar when it differs from the source jar; every other file is unchanged |
| `Artifacts.CleanupLeavesNoArtifacts` | src/main/java/com/winsw/mavenplugin/GenerateExeMojo.java:400-432 | afterwards no remaining file in the output directory ends in `.exe` or `.xml`, none is a script, and the target jar remains only if it is the source jar |
| `Artifacts.CleanupClearsChild` | src/main/java/com/winsw/mavenplugin/GenerateExeMojo.java:400-424 | a file named like an executable, a descriptor or a script is gone from the output directory |
| `Artifacts.CleanupIdempotent` | src/main/java/com/winsw/mavenplugin/GenerateExeMojo.java:399-433 | cleaning up a second time changes nothing |
| `Artifacts.CleanupCoversScripts` | src/main/java/com/winsw/mavenplugin/GenerateExeMojo.java:417 | the names the cleanup deletes are exactly the five generated scripts' names, in the same order |
| `Provisioning.ChooseTier` | src/main/java/com/winsw/mavenplugin/GenerateExeMojo.java:180-200 | an existing path is kept; otherwise the bundled resource is used if present; the network is used exactly when neither holds |
| `Provisioning.Provision` | src/main/java/com/winsw/mavenplugin/GenerateExeMojo.java:179-207 | on success the executable exists; no directory and no other file changes; a failure changes nothing |
| `Provisioning.ProvisionTiers` | src/main/java/com/winsw/mavenplugin/GenerateExeMojo.java:179-207 | each tier's effect: an existing path gives `Ok` unchanged; resource or download bytes become the executable; a failed download names the URL and changes nothing |
| `Provisioning.ProvisionIdempotent` | src/main/java/com/winsw/mavenplugin/GenerateExeMojo.java:180-183 | provisioning again after a success keeps what is there |
| `Mirror.MirrorTree` | src/main/java/com/winsw/mavenplugin/GenerateExeMojo.java:249-263 | mirroring only adds: it keeps every directory and every file path |
| `Mirror.MirrorStaysInTarget` | src/main/java/com/winsw/mavenplugin/GenerateExeMojo.java:249-263 | with the target in place, mirroring changes nothing outside the target directory |
| `Mirror.MirrorComplete` | src/main/java/com/winsw/mavenplugin/GenerateExeMojo.java:250-258 | into a fresh target, on a disk where every entry sits in a directory and no path is both a file and a directory, every walked directory exists under the target, and every walked file is copied to its relative place with its contents |
| `Mirror.MirrorOne` | src/main/java/com/winsw/mavenplugin/GenerateExeMojo.java:230-245 | one additional directory only adds files and directories; a failure changes nothing |
| `Mirror.MirrorOneOutcome` | src/main/java/com/winsw/mavenplugin/GenerateExeMojo.java:230-245 | a missing source changes nothing and does not fail; an existing source without a parent of the output directory fails with the null parent; otherwise it succeeds exactly when the target is not blocked by a file, and the target then exists, no file outside it changed, and every new directory lies in the target or is one of its ancestors |
| `Mirror.MirrorOneComplete` | src/main/java/com/winsw/mavenplugin/GenerateExeMojo.java:230-241 | with a fresh target beside the output directory, every file of the source directory is copied to the same relative place |
| `Mirror.MirrorAll` | src/main/java/com/winsw/mavenplugin/GenerateExeMojo.java:230-246 | the loop over the additional directories only adds files and directories |
| `Mirror.MirrorWithoutParent` | src/main/java/com/winsw/mavenplugin/GenerateExeMojo.java:228-244 | when the output directory has no parent, the disk is unchanged and the only possible failure is the null parent |
| `Mirror.MirrorAllStops` | src/main/java/com/winsw/mavenplugin/GenerateExeMojo.java:230-246 | the loop ends at the first failing entry |
| `Mirror.CopyAdditional` | src/main/java/com/winsw/mavenplugin/GenerateExeMojo.java:219-247 | `copyAdditionalDirectories` never removes a file or a directory, and no path becomes both a file and a directory |
| `Mirror.MirrorAllOutcome` | src/main/java/com/winsw/mavenplugin/GenerateExeMojo.java:230-246 | over the whole loop, a file changes only inside `rootDir/<dir>` for a listed `dir` whose source directory exists; a new directory lies in such a target or is one of its ancestors; when no entry failed, the target of every listed directory that existed at the start is a directory |
| `Mirror.CopyAdditionalOutcome` | src/main/java/com/winsw/mavenplugin/GenerateExeMojo.java:219-247 | without a list nothing happens; without a parent of the output directory the disk is unchanged and the only failure is the null parent; otherwise files change only inside `outputDir.getParent().resolve(dir)` for listed directories that exist in the project, new directories lie in or above those targets, and on success every such target is a directory |
| `Descriptor.Arguments` | src/main/java/com/winsw/mavenplugin/GenerateExeMojo.java:274-286 | `<arguments>` is exactly: the JVM options plus a space (only when present), the fixed baseline flags, the `-jar -Dloader.path="%base%\..\lib","%base%\..\resources" ` clause, then `%BASE%\..\<jar>`, then a space and the application arguments (only when present); the prefix, suffix and length together fix every character |
| `Descriptor.ArgumentsWithoutOptions` | src/main/java/com/winsw/mavenplugin/GenerateExeMojo.java:274-286 | with neither option set, the value starts with the baseline flags and the `-jar` clause, and ends exactly with the jar's file name |
| `Descriptor.LeafRoundTrip` | src/main/java/com/winsw/mavenplugin/GenerateExeMojo.java:268-271 | a value is embedded verbatim, without escaping: it is read back unchanged from its element's line |
| `Descriptor.DescriptorNested` | src/main/java/com/winsw/mavenplugin/GenerateExeMojo.java:267-307 | the document is one `<service>` element with every element closed, innermost first, at the indentation of its depth |
| `Descriptor.DescriptorChildren` | src/main/java/com/winsw/mavenplugin/GenerateExeMojo.java:267-307 | the children of `<service>` come in the fixed order id, name, description, executable, arguments, logpath, logmode, logsize, logkeepfiles, extensions, onfailure |
| `Descriptor.DescriptorValues` | src/main/java/com/winsw/mavenplugin/GenerateExeMojo.java:268-298 | id, name, description, executable and arguments appear unchanged as their elements' text; `<logpath>` is always `%base%\..\logs\out`; the pid file is `%base%\..\logs\out\<id>.pid` |
| `Descriptor.DescriptorPolicy` | src/main/java/com/winsw/mavenplugin/GenerateExeMojo.java:290-305 | the fixed policies: `<logmode>` rotate, `<logsize>` 100MB, `<logkeepfiles>` 100; the runaway-process-killer extension with `<stopTimeout>` 10000 and `<stopParentFirst>` false; `<onfailure action="restart" delay="10 sec"/>` |
| `Scripts.ScriptRoundTrip` | src/main/java/com/winsw/mavenplugin/GenerateExeMojo.java:318-376 | for an id without newlines, splitting a script's text at newlines gives back its lines |
| `Scripts.ScriptAnnouncesService` | src/main/java/com/winsw/mavenplugin/GenerateExeMojo.java:322-330 | a script's second line echoes its activity and the service id; its third line is the administrator reminder and its fourth the blank `echo.` |
| `Scripts.ScriptFrame` | src/main/java/com/winsw/mavenplugin/GenerateExeMojo.java:322-375 | every script starts with `@echo off` and a newline, and ends with `pause > nul` with no newline after it |
| `Scripts.ScriptCommands` | src/main/java/com/winsw/mavenplugin/GenerateExeMojo.java:318-376 | each script runs `.\<id>.exe` with exactly its verbs in order: install; stop then uninstall; start; stop; restart; nothing else it prints invokes the executable |
| `Pipeline.PlanOf` | src/main/java/com/winsw/mavenplugin/GenerateExeMojo.java:83-109 | the plan uses the effective service id and the configured output directory, jar directory and jar; for an id without separators the executable and descriptor are `outputDir/<id>.exe` and `outputDir/<id>.xml`; the target jar is the jar directory joined with the source jar's file name; the log directory is the log path with every `%BASE%` replaced, and the log path itself when it has no token |
| `Pipeline.Prepare` | src/main/java/com/winsw/mavenplugin/GenerateExeMojo.java:95-99 | a cleanup failure is the step's failure; the step succeeds exactly when the cleanup succeeds and no file blocks the output or jar directory; on success both are directories and the files are those the cleanup left; no path becomes both a file and a directory |
| `Pipeline.PlaceJar` | src/main/java/com/winsw/mavenplugin/GenerateExeMojo.java:123-128 | a missing source jar fails with `JarNotFound` and changes nothing; otherwise it succeeds exactly when the copy can be made; a source file's contents then sit at the target jar, and no other path changes |
| `Pipeline.WriteScripts` | src/main/java/com/winsw/mavenplugin/GenerateExeMojo.java:318-376 | writing the scripts never removes a file or touches a directory |
| `Pipeline.WriteScriptsWrites` | src/main/java/com/winsw/mavenplugin/GenerateExeMojo.java:318-376 | after the scripts are written without failure, each holds its own verb's text |
| `Pipeline.WriteScriptsFrame` | src/main/java/com/winsw/mavenplugin/GenerateExeMojo.java:318-376 | writing the scripts touches no path other than the scripts' own |
| `Pipeline.WriteScriptsStops` | src/main/java/com/winsw/mavenplugin/GenerateExeMojo.java:318-376 | script generation ends at the first failed write |
| `Pipeline.Generate` | src/main/java/com/winsw/mavenplugin/GenerateExeMojo.java:123-159 | after provisioning, no step makes a path both a file and a directory |
| `Pipeline.Run` | src/main/java/com/winsw/mavenplugin/GenerateExeMojo.java:78-177 | no path becomes both a file and a directory during the goal |
| `Pipeline.RunSuccess` | src/main/java/com/winsw/mavenplugin/GenerateExeMojo.java:95-159 | for an id without separators, a successful run leaves the executable, the target jar and the log directory in place; the descriptor and all five scripts hold exactly the generated text; the URL field holds the resolved URL |
| `Pipeline.RunWithoutOutputDir` | src/main/java/com/winsw/mavenplugin/GenerateExeMojo.java:95-98 | without an output directory the run fails in the cleanup listing; the disk and the URL field are untouched |
| `Pipeline.RunDownloadUrl` | src/main/java/com/winsw/mavenplugin/GenerateExeMojo.java:95-114 | the URL field is resolved once cleanup and directory creation succeeded, and is unchanged otherwise |
| `Pipeline.PreparedIsClean` | src/main/java/com/winsw/mavenplugin/GenerateExeMojo.java:95-99 | for an id without separators, after cleanup and directory creation there is no executable file, no descriptor, no script, and no target jar unless it is the source jar |
| `Pipeline.ExecutableAlwaysReplaced` | src/main/java/com/winsw/mavenplugin/GenerateExeMojo.java:180-183 | for an id without separators, within a run the "already exists" branch of `downloadWinSW` is never taken unless a directory sits at the executable's path; an id such as `sub/app` puts the executable below the output directory, where the cleanup does not reach, so there an old executable can be kept |
| `Pipeline.RunStopsWithoutJar` | src/main/java/com/winsw/mavenplugin/GenerateExeMojo.java:122-126 | a missing source jar, once the executable is in place, fails the run with that error and changes nothing more |
| `Pipeline.ProvisionedIsClean` | src/main/java/com/winsw/mavenplugin/GenerateExeMojo.java:95-117 | for an id without separators, once the executable is in place there is still no descriptor, no script and no stale target jar |
| `Pipeline.RunWithoutJar` | src/main/java/com/winsw/mavenplugin/GenerateExeMojo.java:122-175 | for an id without separators, a run without its source jar fails with that error and leaves no descriptor, no script and no stale target jar |
| `Pipeline.RunOutputsAgree` | src/main/java/com/winsw/mavenplugin/GenerateExeMojo.java:154-159 | for an id without separators, any two successful runs with the same parameters write identical descriptors and scripts, whatever the disk and environment |
| `Mojo.RenderLines` | src/main/java/com/winsw/mavenplugin/GenerateExeMojo.java:266-307 | writing the lines one after another produces the rendered document |
| `Mojo.GenerateExeMojo.DeleteMatching` | src/main/java/com/winsw/mavenplugin/GenerateExeMojo.java:400-414 | the loop over a glob's matches deletes exactly those files |
| `Mojo.GenerateExeMojo.CleanupPreviousArtifacts` | src/main/java/com/winsw/mavenplugin/GenerateExeMojo.java:399-433 | the in-place cleanup ends in the state and error of `Cleanup` |
| `Mojo.GenerateExeMojo.DownloadWinSW` | src/main/java/com/winsw/mavenplugin/GenerateExeMojo.java:179-207 | the in-place provisioning ends in the state and error of `Provision` |
| `Mojo.GenerateExeMojo.CreateWalkedDirectories` | src/main/java/com/winsw/mavenplugin/GenerateExeMojo.java:250-256 | the walk creates the target of every walked directory, skipping those that fail, and touches no file |
| `Mojo.GenerateExeMojo.CopyWalkedFiles` | src/main/java/com/winsw/mavenplugin/GenerateExeMojo.java:250-262 | the walk copies every walked file that can be copied, skipping those that fail |
| `Mojo.GenerateExeMojo.CopyDirectory` | src/main/java/com/winsw/mavenplugin/GenerateExeMojo.java:249-263 | `copyDirectory` ends in the state `MirrorTree` describes |
| `Mojo.GenerateExeMojo.CopyAdditionalDirectories` | src/main/java/com/winsw/mavenplugin/GenerateExeMojo.java:219-247 | the in-place loop ends in the state and error of `CopyAdditional` |
| `Mojo.GenerateExeMojo.GenerateXmlConfig` | src/main/java/com/winsw/mavenplugin/GenerateExeMojo.java:265-310 | writes the descriptor text `XmlConfig` describes to the descriptor path |
| `Mojo.GenerateExeMojo.GenerateBatchScript` | src/main/java/com/winsw/mavenplugin/GenerateExeMojo.java:384-389 | writes one script's text to its path |
| `Mojo.GenerateExeMojo.GenerateBatchScripts` | src/main/java/com/winsw/mavenplugin/GenerateExeMojo.java:318-376 | writes the five scripts in order, stopping at the first failure, as `WriteScripts` describes |
| `Mojo.GenerateExeMojo.Execute` | src/main/java/com/winsw/mavenplugin/GenerateExeMojo.java:77-177 | the goal's outcome, the URL field afterwards and the disk afterwards are exactly those of `Run` |

## Left out

- Maven plumbing is not modelled: parameter binding and defaults, `MavenProject`, and logging through `getLog()`. The resolved parameter values are inputs (`Parameters.Config`), including `project.getBasedir()` and the absolute output path from `toAbsolutePath()`. The warning for a missing additional directory is therefore not represented; that entry only leaves the disk unchanged.
- The final summary of generated paths is only logging, so it is not modelled.
- The bundled resource `/winsw/WinSW.NET4.exe` and the download from the URL are inputs of the run (`Pipeline.Env`). A failed resource read and a partially written download are not modelled: a download either yields all its bytes or fails before anything is written.
- `setExecutable` is not modelled, because the abstract disk has no permission bits.
- Permission and lock failures of deletes and writes are not modelled. The abstract disk fails only for structural reasons: a missing parent, a directory in the way, or a file in the way.
- Artifacts.Cleanup: the globs and the existence checks also match directories, which Java deletes when empty and fails on when not. The model deletes regular files only and leaves such directories alone.
- FileSystem.CopyFile: copying onto an existing directory fails in the model. Java replaces an empty directory there.
- Mirror.MirrorTree: the recursive walk is modelled as creating every walked directory and then copying every walked file from a snapshot taken at the start. A source and target that overlap, so that the walk sees its own copies, are not modelled. Neither are errors that `Files.walk` itself raises during iteration.
- Mirror.MirrorComplete: completeness is proved only for a target with nothing below it, on a disk where every entry sits in a directory and no path is both a file and a directory. In other cases individual entries may fail and be skipped, as in the code.
- Paths are split at both `/` and `\`, as on Windows. A drive prefix such as `C:` is an ordinary name element, so `resolve` of `D:\x` is appended to the base instead of replacing it. `Paths.get` rejecting an invalid string is not modelled. Neither is `getFileName()` returning null for a root path, which the model reads as the root element.
- Null values for `logPath`, `outputDir`, `jarOutputDir` or `jarPath` are not modelled. Each has a default, and a null one would throw a `NullPointerException`, which is wrapped like any other failure.
- The unused `copyJar` method (lines 209-217) is never called, so it is not modelled.
- The descriptor embeds values without escaping, exactly as the code does.
- Artifacts.Cleanup, Pipeline.PlaceJar and Mirror.MirrorTree: paths are stored and compared by their spelling. `.` and `..` are ordinary names; a relative path never names the same entry as an absolute one; upper and lower case differ. So aliasing through different spellings is not captured. The cleanup's guard at lines 427-429 compares paths by spelling, as `Path.equals` does. But `Files.exists` and `Files.delete` act on the real file, so a target jar spelled differently from the source jar (say `/p/target/app.jar` against `target/app.jar`) deletes the source jar in Java. Line 124 then fails the run, while the model keeps the source jar. Likewise the default log path `%BASE%\..\logs` gives a literal `..` directory in the model.
