/** `copyAdditionalDirectories` and `copyDirectory`: extra project directories are
    mirrored next to the output directory. */
module Mirror {
  import opened Wrappers
  import opened Paths
  import opened FileSystem

  /** `target.resolve(source.relativize(p))`: where an entry below `source` lands. */
  function Dst(source: Path, target: Path, p: Path): Path
  {
    if |source| <= |p| then target + p[|source|..] else target
  }

  /** The directories the walk meets: the root of the walk and every directory below it. */
  function SourceDirs(fs: Fs, source: Path): set<Path>
  {
    {source} + set d | d in fs.dirs && Under(d, source)
  }

  function SourceFiles(fs: Fs, source: Path): set<Path>
  {
    set f | f in fs.files && Under(f, source)
  }

  /** The directories created for the walked directories in `ds`; one whose target
      is blocked by a file fails alone. */
  function CreatedFor(files: map<Path, Content>, ds: set<Path>, source: Path, target: Path): set<Path>
  {
    set d, i | d in ds && !BlockedByFile(files, Dst(source, target, d)) && 1 <= i <= |Dst(source, target, d)|
             :: Dst(source, target, d)[..i]
  }

  lemma CreatedForAdd(files: map<Path, Content>, ds: set<Path>, d: Path, source: Path, target: Path)
    ensures CreatedFor(files, ds + {d}, source, target)
         == CreatedFor(files, ds, source, target)
            + if BlockedByFile(files, Dst(source, target, d)) then {} else Prefixes(Dst(source, target, d))
  {
  }

  /** A walked file that can be copied: its target is no directory and sits in one. */
  predicate Copyable(fs: Fs, source: Path, target: Path, f: Path)
  {
    !IsDir(fs, Dst(source, target, f)) && ParentIsDir(fs, Dst(source, target, f))
  }

  lemma DstInjective(source: Path, target: Path, p: Path, q: Path)
    requires Under(p, source) && Under(q, source) && Dst(source, target, p) == Dst(source, target, q)
    ensures p == q
  {
    assert p == source + p[|source|..] && q == source + q[|source|..];
    assert p[|source|..] == Dst(source, target, p)[|target|..];
  }

  lemma DstInjectiveAll(source: Path, target: Path)
    ensures forall p, q | Under(p, source) && Under(q, source) && Dst(source, target, p) == Dst(source, target, q) :: p == q
  {
    forall p, q | Under(p, source) && Under(q, source) && Dst(source, target, p) == Dst(source, target, q) ensures p == q {
      DstInjective(source, target, p, q);
    }
  }

  /** The copies made for the walked files of `snapshot`, with their contents as the walk began. */
  function CopiesFor(fs: Fs, snapshot: map<Path, Content>, walked: set<Path>, source: Path, target: Path): map<Path, Content>
  {
    DstInjectiveAll(source, target);
    map f | f in walked && f in snapshot && Under(f, source) && Copyable(fs, source, target, f)
      :: Dst(source, target, f) := snapshot[f]
  }

  lemma CopiesForAdd(fs: Fs, snapshot: map<Path, Content>, walked: set<Path>, f: Path, source: Path, target: Path)
    requires f in snapshot
    ensures CopiesFor(fs, snapshot, walked + {f}, source, target)
         == if Under(f, source) && Copyable(fs, source, target, f)
            then CopiesFor(fs, snapshot, walked, source, target)[Dst(source, target, f) := snapshot[f]]
            else CopiesFor(fs, snapshot, walked, source, target)
  {
    DstInjectiveAll(source, target);
  }

  /** The disk once the walked files in `done` have been copied. */
  function Copied(fs: Fs, snapshot: map<Path, Content>, done: set<Path>, source: Path, target: Path): Fs
  {
    Fs(fs.files + CopiesFor(fs, snapshot, done, source, target), fs.dirs)
  }

  lemma CopiedNothing(fs: Fs, snapshot: map<Path, Content>, source: Path, target: Path)
    ensures Copied(fs, snapshot, {}, source, target) == fs
  {
    assert CopiesFor(fs, snapshot, {}, source, target) == map[];
    assert fs.files + map[] == fs.files;
  }

  /** Copying one more walked file onto a disk holding the copies made so far. */
  lemma CopyStep(fs: Fs, snapshot: map<Path, Content>, done: set<Path>, f: Path, source: Path, target: Path)
    requires f in snapshot && Under(f, source)
    ensures WriteFile(Copied(fs, snapshot, done, source, target), Dst(source, target, f), snapshot[f]).fs
         == Copied(fs, snapshot, done + {f}, source, target)
  {
    var dst := Dst(source, target, f);
    var copies := CopiesFor(fs, snapshot, done, source, target);
    CopiesForAdd(fs, snapshot, done, f, source, target);
    if Copyable(fs, source, target, f) {
      UpdateUnion(fs.files, copies, dst, snapshot[f]);
    }
  }

  lemma UpdateUnion<K, V>(a: map<K, V>, b: map<K, V>, k: K, v: V)
    ensures (a + b)[k := v] == a + b[k := v]
  {
  }

  /** `copyDirectory(source, target)`: every walked directory is created below the
      target, then every walked file is copied there; an entry that fails is skipped
      and the rest go on. */
  function MirrorTree(fs: Fs, source: Path, target: Path): (r: Fs)
    ensures Valid(fs) ==> Valid(r)
    ensures fs.dirs <= r.dirs && fs.files.Keys <= r.files.Keys
  {
    var fs1 := Fs(fs.files, fs.dirs + CreatedFor(fs.files, SourceDirs(fs, source), source, target));
    Copied(fs1, fs.files, SourceFiles(fs, source), source, target)
  }

  /** Mirroring into a target whose ancestors are directories changes nothing
      outside the target. */
  lemma MirrorStaysInTarget(fs: Fs, source: Path, target: Path, p: Path)
    requires Prefixes(target) <= fs.dirs && !Under(p, target)
    ensures p in MirrorTree(fs, source, target).files <==> p in fs.files
    ensures p in fs.files ==> MirrorTree(fs, source, target).files[p] == fs.files[p]
    ensures p in MirrorTree(fs, source, target).dirs <==> p in fs.dirs
  {
    var created := CreatedFor(fs.files, SourceDirs(fs, source), source, target);
    if p in created {
      var d, i :| d in SourceDirs(fs, source) && !BlockedByFile(fs.files, Dst(source, target, d))
                  && 1 <= i <= |Dst(source, target, d)| && p == Dst(source, target, d)[..i];
      if i <= |target| {
        assert p == target[..i];
        assert p in Prefixes(target);
      } else {
        assert false;
      }
    }
  }

  /** Nothing exists below the target yet. */
  ghost predicate FreshTarget(fs: Fs, target: Path)
  {
    forall p | p in fs.files || p in fs.dirs :: Under(p, target) ==> p == target
  }

  lemma TargetNotBlocked(fs: Fs, source: Path, target: Path, p: Path)
    requires Valid(fs) && Prefixes(target) <= fs.dirs && FreshTarget(fs, target)
    ensures !BlockedByFile(fs.files, Dst(source, target, p))
  {
    var q := Dst(source, target, p);
    forall i | 1 <= i <= |q| ensures q[..i] !in fs.files {
      if i <= |target| {
        assert q[..i] == target[..i];
        assert q[..i] in Prefixes(target);
      } else {
        assert Under(q[..i], target);
      }
    }
  }

  /** Into a fresh target, on a well-formed disk, the mirror is complete: every walked
      directory exists below the target and every walked file is copied there with
      its contents. */
  lemma MirrorComplete(fs: Fs, source: Path, target: Path)
    requires Valid(fs) && Tree(fs) && IsDir(fs, source)
    requires Prefixes(target) <= fs.dirs && FreshTarget(fs, target)
    ensures forall d | d in SourceDirs(fs, source) :: IsDir(MirrorTree(fs, source, target), Dst(source, target, d))
    ensures forall f | f in SourceFiles(fs, source) ::
      Dst(source, target, f) in MirrorTree(fs, source, target).files
      && MirrorTree(fs, source, target).files[Dst(source, target, f)] == fs.files[f]
  {
    var walkedDirs := SourceDirs(fs, source);
    var created := CreatedFor(fs.files, walkedDirs, source, target);
    var fs1 := Fs(fs.files, fs.dirs + created);
    forall d | d in walkedDirs ensures IsDir(fs1, Dst(source, target, d)) {
      CreatedDir(fs, source, target, d);
    }
    var copies := CopiesFor(fs1, fs.files, SourceFiles(fs, source), source, target);
    forall f | f in SourceFiles(fs, source)
      ensures Dst(source, target, f) in copies && copies[Dst(source, target, f)] == fs.files[f]
    {
      FileCopyable(fs, source, target, f);
      DstInjectiveAll(source, target);
    }
  }

  lemma CreatedDir(fs: Fs, source: Path, target: Path, d: Path)
    requires Valid(fs) && Prefixes(target) <= fs.dirs && FreshTarget(fs, target) && d in SourceDirs(fs, source)
    ensures IsDir(Fs(fs.files, fs.dirs + CreatedFor(fs.files, SourceDirs(fs, source), source, target)), Dst(source, target, d))
  {
    var q := Dst(source, target, d);
    TargetNotBlocked(fs, source, target, d);
    if q != [] {
      assert q[..|q|] == q;
      assert q in CreatedFor(fs.files, SourceDirs(fs, source), source, target);
    }
  }

  /** A walked file lies strictly below the walk's root, in a walked directory. */
  lemma ParentWalked(fs: Fs, source: Path, f: Path)
    requires Valid(fs) && Tree(fs) && IsDir(fs, source) && f in SourceFiles(fs, source)
    ensures |f| > |source| && f[..|f| - 1] in SourceDirs(fs, source)
  {
    assert f != source;
    var parent := f[..|f| - 1];
    assert IsDir(fs, parent);
    assert Under(parent, source);
  }

  /** Targets are ordered as their sources: a target that is a prefix of another
      comes from a prefix of the other's source. */
  lemma DstPrefix(source: Path, target: Path, f: Path, d: Path, i: nat)
    requires Under(f, source) && Under(d, source) && i <= |Dst(source, target, d)|
    requires Dst(source, target, f) == Dst(source, target, d)[..i]
    ensures Under(d, f)
  {
    var q := Dst(source, target, f);
    forall k | 0 <= k < |f| ensures d[k] == f[k] {
      if k >= |source| {
        assert q[|target| + k - |source|] == f[k];
        assert Dst(source, target, d)[|target| + k - |source|] == d[k];
      } else {
        assert d[k] == source[k] == f[k];
      }
    }
  }

  /** On a well-formed disk no walked directory lies at or below a file. */
  lemma NoDirBelowFile(fs: Fs, source: Path, f: Path, d: Path)
    requires Valid(fs) && Tree(fs) && f in fs.files && |f| > |source| && d in SourceDirs(fs, source)
    ensures !Under(d, f)
  {
    assert f in fs.files.Keys && f !in fs.dirs;
    if |d| > |f| {
      assert d in fs.dirs;
      AncestorsAreDirs(fs, d, |f|);
    } else {
      assert d == source || d in fs.dirs;
      assert d != f;
    }
  }

  /** No walked directory lands on a walked file's target. */
  lemma NotCreatedAt(fs: Fs, source: Path, target: Path, f: Path)
    requires Valid(fs) && Tree(fs) && f in SourceFiles(fs, source) && |f| > |source|
    ensures Dst(source, target, f) !in CreatedFor(fs.files, SourceDirs(fs, source), source, target)
  {
    var q := Dst(source, target, f);
    forall d, i | d in SourceDirs(fs, source) && 1 <= i <= |Dst(source, target, d)|
      ensures q != Dst(source, target, d)[..i]
    {
      NoDirBelowFile(fs, source, f, d);
      if q == Dst(source, target, d)[..i] {
        DstPrefix(source, target, f, d, i);
      }
    }
  }

  lemma FileCopyable(fs: Fs, source: Path, target: Path, f: Path)
    requires Valid(fs) && Tree(fs) && IsDir(fs, source)
    requires Prefixes(target) <= fs.dirs && FreshTarget(fs, target) && f in SourceFiles(fs, source)
    ensures Copyable(Fs(fs.files, fs.dirs + CreatedFor(fs.files, SourceDirs(fs, source), source, target)), source, target, f)
  {
    ParentWalked(fs, source, f);
    TargetParentCreated(fs, source, target, f);
    TargetNoDir(fs, source, target, f);
  }

  lemma TargetParentCreated(fs: Fs, source: Path, target: Path, f: Path)
    requires Valid(fs) && Tree(fs) && IsDir(fs, source)
    requires Prefixes(target) <= fs.dirs && FreshTarget(fs, target) && f in SourceFiles(fs, source)
    requires |f| > |source| && f[..|f| - 1] in SourceDirs(fs, source)
    ensures ParentIsDir(Fs(fs.files, fs.dirs + CreatedFor(fs.files, SourceDirs(fs, source), source, target)),
                        Dst(source, target, f))
  {
    CreatedDir(fs, source, target, f[..|f| - 1]);
    DstParent(source, target, f);
  }

  /** The target of a path's parent is the parent of its target. */
  lemma DstParent(source: Path, target: Path, f: Path)
    requires |f| > |source|
    ensures |Dst(source, target, f)| >= 1
    ensures Dst(source, target, f)[..|Dst(source, target, f)| - 1] == Dst(source, target, f[..|f| - 1])
  {
    var q := Dst(source, target, f);
    assert q == target + f[|source|..];
    assert f[..|f| - 1][|source|..] == f[|source|..|f| - 1];
    assert q[..|q| - 1] == target + f[|source|..|f| - 1];
  }

  lemma TargetNoDir(fs: Fs, source: Path, target: Path, f: Path)
    requires Valid(fs) && Tree(fs) && IsDir(fs, source)
    requires FreshTarget(fs, target) && f in SourceFiles(fs, source) && |f| > |source|
    ensures !IsDir(Fs(fs.files, fs.dirs + CreatedFor(fs.files, SourceDirs(fs, source), source, target)),
                   Dst(source, target, f))
  {
    var q := Dst(source, target, f);
    assert Under(q, target) && q != target;
    assert q !in fs.dirs;
    NotCreatedAt(fs, source, target, f);
  }

  /** One entry of `additionalDirectories`: the directory of that name in the project
      is mirrored to the directory of that name beside the output directory. A
      missing source is only warned about; an existing one with no place to go
      (the output directory has no parent) fails. */
  function MirrorOne(fs: Fs, rootDir: Option<Path>, baseDir: Path, dir: string): (r: Step)
    ensures Valid(fs) ==> Valid(r.fs)
    ensures fs.files.Keys <= r.fs.files.Keys && fs.dirs <= r.fs.dirs
    ensures r.Err? ==> r.fs == fs
  {
    var source := JoinText(baseDir, dir);
    if !IsDir(fs, source) then Ok(fs)
    else if rootDir.None? then Err(NullParent, fs)
    else
      var target := ResolveText(rootDir.value, dir);
      match CreateDirs(fs, target)
      case Err(e, f) => Err(e, f)
      case Ok(f) => Ok(MirrorTree(f, source, target))
  }

  /** The entries in list order; the first failure ends the loop. */
  function MirrorAll(fs: Fs, rootDir: Option<Path>, baseDir: Path, dirs: seq<string>): (r: Step)
    ensures Valid(fs) ==> Valid(r.fs)
    ensures fs.files.Keys <= r.fs.files.Keys && fs.dirs <= r.fs.dirs
    decreases |dirs|
  {
    if dirs == [] then Ok(fs)
    else match MirrorAll(fs, rootDir, baseDir, dirs[..|dirs| - 1])
      case Err(e, f) => Err(e, f)
      case Ok(f) => MirrorOne(f, rootDir, baseDir, dirs[|dirs| - 1])
  }

  /** `copyAdditionalDirectories(outputPath)`: the targets lie in the parent of the
      output directory. */
  function CopyAdditional(fs: Fs, dirs: Option<seq<string>>, outputDir: Path, baseDir: Path): (r: Step)
    ensures Valid(fs) ==> Valid(r.fs)
    ensures fs.files.Keys <= r.fs.files.Keys && fs.dirs <= r.fs.dirs
  {
    if dirs.None? || dirs.value == [] then Ok(fs)
    else MirrorAll(fs, Parent(outputDir), baseDir, dirs.value)
  }

  /** What one entry does: nothing for a missing source; a null-parent failure
      for an existing source when the output directory has no parent; otherwise the
      target afterwards exists and nothing outside it has changed. */
  lemma MirrorOneOutcome(fs: Fs, rootDir: Option<Path>, baseDir: Path, dir: string)
    ensures var r := MirrorOne(fs, rootDir, baseDir, dir);
      && (!IsDir(fs, JoinText(baseDir, dir)) ==> r == Ok(fs))
      && (IsDir(fs, JoinText(baseDir, dir)) && rootDir.None? ==> r == Err(NullParent, fs))
      && (IsDir(fs, JoinText(baseDir, dir)) && rootDir.Some? ==>
            var target := ResolveText(rootDir.value, dir);
            (r.Ok? <==> !BlockedByFile(fs.files, target))
            && (r.Ok? ==> IsDir(r.fs, target)
                          && (forall p | !Under(p, target) ::
                               (p in r.fs.files <==> p in fs.files) && (p in fs.files ==> r.fs.files[p] == fs.files[p]))
                          && forall q | q in r.fs.dirs - fs.dirs :: Under(q, target) || Under(target, q)))
  {
    var source := JoinText(baseDir, dir);
    if IsDir(fs, source) && rootDir.Some? {
      var target := ResolveText(rootDir.value, dir);
      var c := CreateDirs(fs, target);
      if c.Ok? {
        var f := c.fs;
        assert Prefixes(target) <= f.dirs;
        forall p | !Under(p, target)
          ensures (p in MirrorTree(f, source, target).files <==> p in fs.files)
          ensures p in fs.files ==> MirrorTree(f, source, target).files[p] == fs.files[p]
          ensures p in MirrorTree(f, source, target).dirs <==> p in f.dirs
        {
          MirrorStaysInTarget(f, source, target, p);
        }
      }
    }
  }

  /** An entry whose target is new, on a well-formed disk, copies every file of the
      source directory to the same place below the target. */
  lemma MirrorOneComplete(fs: Fs, root: Path, baseDir: Path, dir: string)
    requires Valid(fs) && Tree(fs) && IsDir(fs, JoinText(baseDir, dir))
    requires !BlockedByFile(fs.files, ResolveText(root, dir)) && FreshTarget(fs, ResolveText(root, dir))
    ensures var r := MirrorOne(fs, Some(root), baseDir, dir);
      var source, target := JoinText(baseDir, dir), ResolveText(root, dir);
      r.Ok? && forall f | f in SourceFiles(fs, source) ::
        Dst(source, target, f) in r.fs.files && r.fs.files[Dst(source, target, f)] == fs.files[f]
  {
    var source, target := JoinText(baseDir, dir), ResolveText(root, dir);
    var f := CreateDirs(fs, target).fs;
    CreateDirsTree(fs, target);
    assert FreshTarget(f, target) by {
      forall p | (p in f.files || p in f.dirs) && Under(p, target) ensures p == target {
        if p !in fs.dirs && p !in fs.files {
          var i :| 1 <= i <= |target| && p == target[..i];
        }
      }
    }
    assert Prefixes(target) <= f.dirs;
    assert SourceFiles(f, source) == SourceFiles(fs, source);
    MirrorComplete(f, source, target);
  }

  /** Without a parent for the output directory, the entries either all find no
      source, changing nothing, or the run stops with the null-parent failure. */
  lemma {:induction false} MirrorWithoutParent(fs: Fs, baseDir: Path, dirs: seq<string>)
    ensures var r := MirrorAll(fs, None, baseDir, dirs);
      r.fs == fs && (r.Err? ==> r.error == NullParent)
    decreases |dirs|
  {
    if dirs != [] {
      MirrorWithoutParent(fs, baseDir, dirs[..|dirs| - 1]);
    }
  }

  /** The loop over the entries ends at its first failure: what follows a failed
      prefix changes nothing. */
  lemma {:induction false} MirrorAllStops(fs: Fs, rootDir: Option<Path>, baseDir: Path, dirs: seq<string>, k: nat)
    requires k <= |dirs|
    requires MirrorAll(fs, rootDir, baseDir, dirs[..k]).Err?
    ensures MirrorAll(fs, rootDir, baseDir, dirs) == MirrorAll(fs, rootDir, baseDir, dirs[..k])
    decreases |dirs| - k
  {
    if k < |dirs| {
      assert dirs[..k + 1][..k] == dirs[..k];
      MirrorAllStops(fs, rootDir, baseDir, dirs, k + 1);
    } else {
      assert dirs[..k] == dirs;
    }
  }

  /** `p` lies in the target, beside `root`, of an entry of `dirs` whose source is a
      directory on `fs`. */
  predicate InMirrored(fs: Fs, root: Path, baseDir: Path, dirs: seq<string>, p: Path)
  {
    exists d | d in dirs && IsDir(fs, JoinText(baseDir, d)) :: Under(p, ResolveText(root, d))
  }

  /** `p` is in such a target or is one of its ancestors. */
  predicate OnMirrorPath(fs: Fs, root: Path, baseDir: Path, dirs: seq<string>, p: Path)
  {
    exists d | d in dirs && IsDir(fs, JoinText(baseDir, d)) ::
      Under(p, ResolveText(root, d)) || Under(ResolveText(root, d), p)
  }

  lemma MirroredGrows(f1: Fs, f2: Fs, root: Path, baseDir: Path, ds1: seq<string>, ds2: seq<string>, p: Path)
    requires f1.dirs <= f2.dirs && forall d | d in ds1 :: d in ds2
    ensures InMirrored(f1, root, baseDir, ds1, p) ==> InMirrored(f2, root, baseDir, ds2, p)
    ensures OnMirrorPath(f1, root, baseDir, ds1, p) ==> OnMirrorPath(f2, root, baseDir, ds2, p)
  {
  }

  /** The whole loop beside `root`: a file changes only inside the target of an entry
      whose source directory exists (sources are read on the disk after the loop,
      which only ever gains directories); a new directory lies in such a target or on
      the way to it; and when no entry failed, the target of every entry whose source
      existed at the start is a directory. */
  lemma {:induction false} MirrorAllOutcome(fs: Fs, root: Path, baseDir: Path, dirs: seq<string>)
    ensures var r := MirrorAll(fs, Some(root), baseDir, dirs);
      && (forall p | !InMirrored(r.fs, root, baseDir, dirs, p) ::
            (p in r.fs.files <==> p in fs.files) && (p in fs.files ==> r.fs.files[p] == fs.files[p]))
      && (forall q | q in r.fs.dirs - fs.dirs :: OnMirrorPath(r.fs, root, baseDir, dirs, q))
      && (r.Ok? ==> forall d | d in dirs && IsDir(fs, JoinText(baseDir, d)) :: IsDir(r.fs, ResolveText(root, d)))
    decreases |dirs|
  {
    if dirs != [] {
      var init, last := dirs[..|dirs| - 1], dirs[|dirs| - 1];
      assert forall d | d in init :: d in dirs;
      assert dirs == init + [last];
      MirrorAllOutcome(fs, root, baseDir, init);
      var r1 := MirrorAll(fs, Some(root), baseDir, init);
      var r := MirrorAll(fs, Some(root), baseDir, dirs);
      if r1.Ok? {
        var source, target := JoinText(baseDir, last), ResolveText(root, last);
        MirrorOneOutcome(r1.fs, Some(root), baseDir, last);
        assert r == MirrorOne(r1.fs, Some(root), baseDir, last);
        forall p | !InMirrored(r.fs, root, baseDir, dirs, p)
          ensures (p in r.fs.files <==> p in fs.files) && (p in fs.files ==> r.fs.files[p] == fs.files[p])
        {
          MirroredGrows(r1.fs, r.fs, root, baseDir, init, dirs, p);
          if r.Ok? && IsDir(r1.fs, source) {
            assert !Under(p, target);
          }
        }
        forall q | q in r.fs.dirs - fs.dirs ensures OnMirrorPath(r.fs, root, baseDir, dirs, q) {
          MirroredGrows(r1.fs, r.fs, root, baseDir, init, dirs, q);
          if q !in r1.fs.dirs {
            assert Under(q, target) || Under(target, q);
          }
        }
        if r.Ok? {
          forall d | d in dirs && IsDir(fs, JoinText(baseDir, d)) ensures IsDir(r.fs, ResolveText(root, d)) {
            if d !in init {
              assert d == last;
            }
          }
        }
      }
    }
  }

  /** `copyAdditionalDirectories(outputPath)` as a whole: without a list nothing
      happens; without a parent of the output directory the disk is unchanged and the
      only failure is the null parent; otherwise files change only inside
      `outputDir.getParent().resolve(dir)` for a listed `dir` whose source exists, new
      directories lie in or on the way to those targets, and on success each target
      of a source present at the start is a directory. */
  lemma CopyAdditionalOutcome(fs: Fs, dirs: Option<seq<string>>, outputDir: Path, baseDir: Path)
    ensures var r := CopyAdditional(fs, dirs, outputDir, baseDir);
      && (dirs.None? ==> r == Ok(fs))
      && (Parent(outputDir).None? ==> r.fs == fs && (r.Err? ==> r.error == NullParent))
      && (dirs.Some? && Parent(outputDir).Some? ==>
            var root := Parent(outputDir).value;
            && (forall p | !InMirrored(r.fs, root, baseDir, dirs.value, p) ::
                  (p in r.fs.files <==> p in fs.files) && (p in fs.files ==> r.fs.files[p] == fs.files[p]))
            && (forall q | q in r.fs.dirs - fs.dirs :: OnMirrorPath(r.fs, root, baseDir, dirs.value, q))
            && (r.Ok? ==> forall d | d in dirs.value && IsDir(fs, JoinText(baseDir, d)) ::
                            IsDir(r.fs, ResolveText(root, d))))
  {
    if dirs.Some? {
      assert CopyAdditional(fs, dirs, outputDir, baseDir) == MirrorAll(fs, Parent(outputDir), baseDir, dirs.value);
      if Parent(outputDir).Some? {
        MirrorAllOutcome(fs, Parent(outputDir).value, baseDir, dirs.value);
      } else {
        MirrorWithoutParent(fs, baseDir, dirs.value);
      }
    }
  }
}
