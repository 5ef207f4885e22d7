/** The file system the plugin works on, as a value (`Fs`) with the semantics of
    the `java.nio.file.Files` calls it makes, and as an object (`FileStore`) whose
    methods update it in place. */
module FileSystem {
  import opened Wrappers
  import opened Paths

  /** What a regular file holds: text the plugin writes, or bytes it copies. */
  datatype Content = Text(text: string) | Binary(bytes: seq<bv8>)

  /** The exceptions the plugin can meet; each one ends the run. */
  datatype IoError =
    | NoSuchFile(path: Path)
    | NotADirectory(path: Path)
    | FileAlreadyExists(path: Path)
    | IsADirectory(path: Path)
    | JarNotFound(path: Path)
    | DownloadFailed(url: string)
    | NullParent

  /** Regular files with their contents, and directories. */
  datatype Fs = Fs(files: map<Path, Content>, dirs: set<Path>)

  /** The state after an operation, and the exception if it threw one. */
  datatype Step = Ok(fs: Fs) | Err(error: IoError, fs: Fs)

  function StepOf(err: Option<IoError>, fs: Fs): (r: Step)
    ensures r.fs == fs && (r.Ok? <==> err.None?)
  {
    match err
    case None => Ok(fs)
    case Some(e) => Err(e, fs)
  }

  /** No path is both a file and a directory, and the working directory is not a file. */
  predicate Valid(fs: Fs)
  {
    [] !in fs.files && fs.files.Keys !! fs.dirs
  }

  predicate IsDir(fs: Fs, p: Path)
  {
    p == [] || p in fs.dirs
  }

  /** `Files.exists`. */
  predicate Exists(fs: Fs, p: Path)
  {
    IsDir(fs, p) || p in fs.files
  }

  predicate ParentIsDir(fs: Fs, p: Path)
  {
    |p| >= 1 && IsDir(fs, p[..|p| - 1])
  }

  /** Some leading part of `p` (or `p` itself) is a regular file. */
  predicate BlockedByFile(files: map<Path, Content>, p: Path)
  {
    exists i | 1 <= i <= |p| :: p[..i] in files
  }

  /** Every file and directory sits in a directory, as on a real disk. */
  ghost predicate Tree(fs: Fs)
  {
    forall p | p in fs.files || p in fs.dirs :: |p| >= 1 ==> IsDir(fs, p[..|p| - 1])
  }

  /** In a tree, every ancestor of an entry is a directory. */
  lemma {:induction false} AncestorsAreDirs(fs: Fs, p: Path, k: nat)
    requires Tree(fs) && (p in fs.files || p in fs.dirs) && k < |p|
    ensures IsDir(fs, p[..k])
    decreases |p| - k
  {
    var q := p[..|p| - 1];
    assert IsDir(fs, q);
    if k < |q| {
      if q == [] {
      } else {
        AncestorsAreDirs(fs, q, k);
        assert q[..k] == p[..k];
      }
    } else {
      assert p[..k] == q;
    }
  }

  function Prefixes(p: Path): set<Path>
  {
    set i | 1 <= i <= |p| :: p[..i]
  }

  /** `Files.createDirectories`: creates `p` and every missing ancestor, and throws,
      creating nothing, when one of them is a regular file. */
  function CreateDirs(fs: Fs, p: Path): (r: Step)
    ensures Valid(fs) ==> Valid(r.fs)
    ensures r.Ok? <==> !BlockedByFile(fs.files, p)
    ensures r.fs.files == fs.files && fs.dirs <= r.fs.dirs
    ensures r.Ok? ==> IsDir(r.fs, p) && forall q | q in r.fs.dirs - fs.dirs :: Under(p, q)
    ensures r.Err? ==> r.fs == fs
  {
    if BlockedByFile(fs.files, p) then Err(FileAlreadyExists(p), fs)
    else
      assert p != [] ==> p[..|p|] == p;
      Ok(Fs(fs.files, fs.dirs + Prefixes(p)))
  }

  /** Creating directories keeps a disk well formed. */
  lemma CreateDirsTree(fs: Fs, p: Path)
    requires Tree(fs)
    ensures Tree(CreateDirs(fs, p).fs)
  {
    var r := CreateDirs(fs, p).fs;
    forall q | q in r.files || q in r.dirs
      ensures |q| >= 1 ==> IsDir(r, q[..|q| - 1])
    {
      if q !in fs.files && q !in fs.dirs {
        var i :| 1 <= i <= |p| && q == p[..i];
        if i > 1 {
          assert q[..|q| - 1] == p[..i - 1];
          assert p[..i - 1] in Prefixes(p);
        }
      }
    }
  }

  /** `Files.write` / `Files.newBufferedWriter` with the default options: creates or
      truncates `p`; throws when `p` is a directory or its parent is not one. */
  function WriteFile(fs: Fs, p: Path, c: Content): (r: Step)
    ensures Valid(fs) ==> Valid(r.fs)
    ensures r.fs.dirs == fs.dirs
    ensures r.Ok? <==> !IsDir(fs, p) && ParentIsDir(fs, p)
    ensures r.Ok? ==> r.fs.files == fs.files[p := c]
    ensures r.Err? ==> r.fs == fs
  {
    if IsDir(fs, p) then Err(IsADirectory(p), fs)
    else if !ParentIsDir(fs, p) then Err(NoSuchFile(p), fs)
    else Ok(Fs(fs.files[p := c], fs.dirs))
  }

  /** `Files.copy(src, dst, REPLACE_EXISTING)`: copying a path onto itself does
      nothing; copying a directory creates an empty directory. */
  function CopyFile(fs: Fs, src: Path, dst: Path): (r: Step)
    ensures Valid(fs) ==> Valid(r.fs)
    ensures r.Ok? <==> Exists(fs, src) && (src == dst || (!IsDir(fs, dst) && ParentIsDir(fs, dst)))
    ensures r.Ok? && src in fs.files ==> r.fs.files == fs.files[dst := fs.files[src]] && r.fs.dirs == fs.dirs
    ensures r.Ok? ==> Exists(r.fs, dst)
    ensures forall p | p != dst :: (p in r.fs.files <==> p in fs.files) && (p in fs.files ==> r.fs.files[p] == fs.files[p])
    ensures forall p | Exists(fs, p) :: Exists(r.fs, p)
    ensures r.Err? ==> r.fs == fs
  {
    if !Exists(fs, src) then Err(NoSuchFile(src), fs)
    else if src == dst then Ok(fs)
    else if IsDir(fs, dst) then Err(IsADirectory(dst), fs)
    else if !ParentIsDir(fs, dst) then Err(NoSuchFile(dst), fs)
    else if src in fs.files then Ok(Fs(fs.files[dst := fs.files[src]], fs.dirs))
    else Ok(Fs(fs.files - {dst}, fs.dirs + {dst}))
  }

  /** `Files.delete` of an existing regular file. */
  function DeleteFile(fs: Fs, p: Path): (r: Fs)
    requires p in fs.files
    ensures Valid(fs) ==> Valid(r)
    ensures r.files.Keys == fs.files.Keys - {p} && r.dirs == fs.dirs
    ensures forall q | q in r.files :: r.files[q] == fs.files[q]
  {
    Fs(fs.files - {p}, fs.dirs)
  }

  /** The file system as a mutable object, the way the plugin sees it. */
  class FileStore {
    var files: map<Path, Content>
    var dirs: set<Path>

    function State(): Fs
      reads this
    {
      Fs(files, dirs)
    }

    constructor (init: Fs)
      ensures State() == init
    {
      files := init.files;
      dirs := init.dirs;
    }

    function IsDirectory(p: Path): (b: bool)
      reads this
      ensures b == IsDir(State(), p)
    {
      p == [] || p in dirs
    }

    function PathExists(p: Path): (b: bool)
      reads this
      ensures b == Exists(State(), p)
    {
      p == [] || p in dirs || p in files
    }

    method CreateDirectories(p: Path) returns (err: Option<IoError>)
      modifies this
      ensures StepOf(err, State()) == CreateDirs(old(State()), p)
    {
      if exists i | 1 <= i <= |p| :: p[..i] in files {
        err := Some(FileAlreadyExists(p));
      } else {
        dirs := dirs + Prefixes(p);
        err := None;
      }
    }

    method Write(p: Path, c: Content) returns (err: Option<IoError>)
      modifies this
      ensures StepOf(err, State()) == WriteFile(old(State()), p, c)
    {
      if p == [] || p in dirs {
        err := Some(IsADirectory(p));
      } else if !(p[..|p| - 1] == [] || p[..|p| - 1] in dirs) {
        err := Some(NoSuchFile(p));
      } else {
        files := files[p := c];
        err := None;
      }
    }

    method Copy(src: Path, dst: Path) returns (err: Option<IoError>)
      modifies this
      ensures StepOf(err, State()) == CopyFile(old(State()), src, dst)
    {
      if !PathExists(src) {
        err := Some(NoSuchFile(src));
      } else if src == dst {
        err := None;
      } else if IsDirectory(dst) {
        err := Some(IsADirectory(dst));
      } else if !IsDirectory(dst[..|dst| - 1]) {
        err := Some(NoSuchFile(dst));
      } else if src in files {
        files := files[dst := files[src]];
        err := None;
      } else {
        files := files - {dst};
        dirs := dirs + {dst};
        err := None;
      }
    }

    method Delete(p: Path)
      requires p in files
      modifies this
      ensures State() == DeleteFile(old(State()), p)
    {
      files := files - {p};
    }
  }
}
