/** The names and paths `execute` derives from its parameters before it touches
    the file system. */
module Naming {
  import opened Wrappers
  import opened Strings
  import opened Paths

  /** The service id actually used: a non-empty `projectName` overrides `serviceId`. */
  function EffectiveServiceId(serviceId: string, projectName: Option<string>): (id: string)
    ensures Present(projectName) ==> id == projectName.value
    ensures !Present(projectName) ==> id == serviceId
  {
    if Present(projectName) then projectName.value else serviceId
  }

  const ExeSuffix := ".exe"
  const XmlSuffix := ".xml"

  /** `<id>.exe`: the id followed by the executable extension. */
  function ExeName(id: string): (n: string)
    ensures HasSuffix(n, ExeSuffix) && HasPrefix(n, id) && |n| == |id| + |ExeSuffix|
  {
    id + ExeSuffix
  }

  /** `<id>.xml`: the id followed by the descriptor extension. */
  function XmlName(id: string): (n: string)
    ensures HasSuffix(n, XmlSuffix) && HasPrefix(n, id) && |n| == |id| + |XmlSuffix|
  {
    id + XmlSuffix
  }

  /** Distinct ids give distinct file names, and the executable and the descriptor
      never share a name. */
  lemma NamesDistinct(a: string, b: string)
    ensures ExeName(a) == ExeName(b) ==> a == b
    ensures XmlName(a) == XmlName(b) ==> a == b
    ensures ExeName(a) != XmlName(b)
  {
    if ExeName(a) == ExeName(b) {
      assert a == ExeName(a)[..|a|] && b == ExeName(b)[..|b|];
    }
    if XmlName(a) == XmlName(b) {
      assert a == XmlName(a)[..|a|] && b == XmlName(b)[..|b|];
    }
    var e, x := ExeName(a), XmlName(b);
    if |e| == |x| {
      assert e[|e| - 1] == 'e' && x[|x| - 1] == 'l';
    }
  }

  /** `outputDir/<id>.exe` and `outputDir/<id>.xml`. */
  function ExePath(outputDir: Path, id: string): Path
  {
    ResolveText(outputDir, ExeName(id))
  }

  function XmlPath(outputDir: Path, id: string): Path
  {
    ResolveText(outputDir, XmlName(id))
  }

  /** For an id without separators both files sit directly in the output directory
      under their own names. */
  lemma GeneratedPaths(outputDir: Path, id: string)
    requires NoSeparator(id)
    ensures ExePath(outputDir, id) == outputDir + [id + ExeSuffix]
    ensures XmlPath(outputDir, id) == outputDir + [id + XmlSuffix]
    ensures ExePath(outputDir, id) != XmlPath(outputDir, id)
  {
    assert NoSeparator(ExeSuffix) && NoSeparator(XmlSuffix);
    assert NoSeparator(ExeName(id)) by {
      forall i | 0 <= i < |ExeName(id)| ensures !IsSeparator(ExeName(id)[i]) {
        if i >= |id| { assert ExeName(id)[i] == ExeSuffix[i - |id|]; }
      }
    }
    assert NoSeparator(XmlName(id)) by {
      forall i | 0 <= i < |XmlName(id)| ensures !IsSeparator(XmlName(id)[i]) {
        if i >= |id| { assert XmlName(id)[i] == XmlSuffix[i - |id|]; }
      }
    }
    ResolveName(outputDir, ExeName(id));
    ResolveName(outputDir, XmlName(id));
    NamesDistinct(id, id);
  }

  const DefaultUrlPrefix := "https://github.com/winsw/winsw/releases/download/v"
  const DefaultUrlSuffix := "/WinSW.NET4.exe"

  /** The release asset URL of a WinSW version; the version can be read back from it. */
  function DefaultDownloadUrl(version: string): (u: string)
    ensures HasPrefix(u, DefaultUrlPrefix) && HasSuffix(u, DefaultUrlSuffix)
    ensures |u| == |DefaultUrlPrefix| + |version| + |DefaultUrlSuffix|
    ensures u[|DefaultUrlPrefix|..|u| - |DefaultUrlSuffix|] == version
  {
    DefaultUrlPrefix + version + DefaultUrlSuffix
  }

  /** `winswDownloadUrl` after line 112: a configured, non-empty URL is kept,
      otherwise the version's release URL is used. */
  function ResolveDownloadUrl(configured: Option<string>, version: string): (u: string)
    ensures u != []
    ensures Present(configured) ==> u == configured.value
    ensures !Present(configured) ==> u == DefaultDownloadUrl(version)
  {
    if Present(configured) then configured.value else DefaultDownloadUrl(version)
  }

  /** `execute` stores the resolved URL back into its field, so on a later run of
      the same object the URL stays the one computed first, whatever the version. */
  lemma ResolvedUrlIsSticky(configured: Option<string>, v1: string, v2: string)
    ensures ResolveDownloadUrl(Some(ResolveDownloadUrl(configured, v1)), v2) == ResolveDownloadUrl(configured, v1)
  {
  }

  const BaseToken := "%BASE%"

  /** The log directory to create on disk, and the value handed to the descriptor. */
  datatype LogPaths = LogPaths(createDir: string, xmlValue: string)

  /** The descriptor keeps `logPath` exactly as configured, while the directory to
      create has every `%BASE%` replaced by the absolute output directory. The two
      branches agree: without the token the replacement changes nothing. */
  function SplitLogPath(logPath: string, absoluteOutputDir: string): (r: LogPaths)
    ensures r.xmlValue == logPath
    ensures r.createDir == ReplaceAll(logPath, BaseToken, absoluteOutputDir)
    ensures !Contains(logPath, BaseToken) ==> r.createDir == logPath
  {
    if Contains(logPath, BaseToken) then
      LogPaths(ReplaceAll(logPath, BaseToken, absoluteOutputDir), logPath)
    else
      ReplaceAllWithoutToken(logPath, BaseToken, absoluteOutputDir);
      LogPaths(logPath, logPath)
  }
}
