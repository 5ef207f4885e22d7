/** File-system paths as sequences of name elements, with the meaning of the
    `java.nio.file.Path` operations the plugin uses. A path that starts with a
    separator keeps it as a first element `Root`; the empty path is the working
    directory. */
module Paths {
  import opened Wrappers

  type Path = seq<string>

  const Root := "/"

  predicate IsSeparator(c: char)
  {
    c == '/' || c == '\\'
  }

  predicate NoSeparator(s: string)
  {
    forall i | 0 <= i < |s| :: !IsSeparator(s[i])
  }

  predicate IsAbsolute(s: string)
  {
    |s| > 0 && IsSeparator(s[0])
  }

  /** The name elements of `s`: its maximal runs of non-separator characters,
      `pending` being the run read so far. */
  function Names(s: string, pending: string): seq<string>
    decreases |s|
  {
    if s == [] then (if pending == [] then [] else [pending])
    else if IsSeparator(s[0]) then (if pending == [] then [] else [pending]) + Names(s[1..], [])
    else Names(s[1..], pending + [s[0]])
  }

  /** `Paths.get(s)`. */
  function PathOf(s: string): Path
  {
    if IsAbsolute(s) then [Root] + Names(s, "") else Names(s, "")
  }

  /** `base.resolve(s)`: an absolute `s` replaces the base. */
  function ResolveText(base: Path, s: string): Path
  {
    if IsAbsolute(s) then PathOf(s) else base + Names(s, "")
  }

  /** `Paths.get(base, s)`: a further string is always joined below the base. */
  function JoinText(base: Path, s: string): Path
  {
    base + Names(s, "")
  }

  /** `getFileName()` (and `File.getName()`): the last name element. */
  function FileName(p: Path): string
  {
    if p == [] then "" else p[|p| - 1]
  }

  /** `getParent()`: `None` is Java's null, for a single name or the root alone. */
  function Parent(p: Path): Option<Path>
  {
    if |p| <= 1 then None else Some(p[..|p| - 1])
  }

  predicate IsChildOf(p: Path, dir: Path)
  {
    |p| == |dir| + 1 && p[..|dir|] == dir
  }

  /** `p` is `dir` or lies somewhere below it. */
  predicate Under(p: Path, dir: Path)
  {
    |dir| <= |p| && p[..|dir|] == dir
  }

  lemma {:induction false} NamesOfName(s: string, pending: string)
    requires NoSeparator(s)
    ensures Names(s, pending) == if pending + s == [] then [] else [pending + s]
    decreases |s|
  {
    if s != [] {
      assert !IsSeparator(s[0]);
      assert Names(s, pending) == Names(s[1..], pending + [s[0]]);
      NamesOfName(s[1..], pending + [s[0]]);
      assert pending + [s[0]] + s[1..] == pending + s;
      assert pending + s != [];
    } else {
      assert pending + s == pending;
    }
  }

  /** Resolving a plain file name appends exactly that one element. */
  lemma ResolveName(base: Path, name: string)
    requires name != [] && NoSeparator(name)
    ensures ResolveText(base, name) == base + [name]
    ensures IsChildOf(ResolveText(base, name), base)
    ensures FileName(ResolveText(base, name)) == name
  {
    NamesOfName(name, "");
    assert "" + name == name;
  }
}
