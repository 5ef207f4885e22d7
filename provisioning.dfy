/** `downloadWinSW`: how the WinSW executable gets into the output directory. */
module Provisioning {
  import opened Wrappers
  import opened Paths
  import opened FileSystem

  /** Where the executable comes from, in order of preference. */
  datatype Tier = KeepExisting | FromResource | FromNetwork

  /** An executable already there is kept; otherwise the copy bundled with the
      plugin is used when there is one; only then is it downloaded. */
  function ChooseTier(fs: Fs, exe: Path, resource: Option<Content>): (t: Tier)
    ensures t == KeepExisting <==> Exists(fs, exe)
    ensures t == FromNetwork <==> !Exists(fs, exe) && resource.None?
  {
    if Exists(fs, exe) then KeepExisting
    else if resource.Some? then FromResource
    else FromNetwork
  }

  /** The executable put at `exe`. `resource` is the bundled `/winsw/WinSW.NET4.exe`
      (`None` when the plugin carries none); `fetch` gives what the URL serves, or
      `None` when opening it fails. */
  function Provision(fs: Fs, exe: Path, resource: Option<Content>, fetch: string -> Option<Content>, url: string): (r: Step)
    ensures Valid(fs) ==> Valid(r.fs)
    ensures r.fs.dirs == fs.dirs
    ensures r.Ok? ==> Exists(r.fs, exe)
    ensures r.Err? ==> r.fs == fs
    ensures forall p | p != exe :: (p in r.fs.files <==> p in fs.files) && (p in fs.files ==> r.fs.files[p] == fs.files[p])
  {
    match ChooseTier(fs, exe, resource)
    case KeepExisting => Ok(fs)
    case FromResource => WriteFile(fs, exe, resource.value)
    case FromNetwork =>
      match fetch(url)
      case None => Err(DownloadFailed(url), fs)
      case Some(c) => WriteFile(fs, exe, c)
  }

  /** What each tier does: an existing path is left as it is; otherwise the bundled
      or downloaded bytes become the executable, and a failed download changes
      nothing and names the URL. */
  lemma ProvisionTiers(fs: Fs, exe: Path, resource: Option<Content>, fetch: string -> Option<Content>, url: string)
    ensures var r := Provision(fs, exe, resource, fetch, url);
      && (Exists(fs, exe) ==> r == Ok(fs))
      && (!Exists(fs, exe) && resource.Some? ==>
            (r.Ok? <==> ParentIsDir(fs, exe)) && (r.Ok? ==> r.fs.files == fs.files[exe := resource.value]))
      && (!Exists(fs, exe) && resource.None? && fetch(url).None? ==> r == Err(DownloadFailed(url), fs))
      && (!Exists(fs, exe) && resource.None? && fetch(url).Some? ==>
            (r.Ok? <==> ParentIsDir(fs, exe)) && (r.Ok? ==> r.fs.files == fs.files[exe := fetch(url).value]))
  {
  }

  /** Provisioning again after a success keeps what is there. */
  lemma ProvisionIdempotent(fs: Fs, exe: Path, resource: Option<Content>, fetch: string -> Option<Content>, url: string)
    requires Provision(fs, exe, resource, fetch, url).Ok?
    ensures var r := Provision(fs, exe, resource, fetch, url).fs;
      Provision(r, exe, resource, fetch, url) == Ok(r)
  {
  }
}
