/** The WinSW service descriptor `<id>.xml` written by `generateXmlConfig`: the
    `<arguments>` value, and the document as the sequence of lines the writer emits. */
module Descriptor {
  import opened Wrappers
  import opened Strings
  import opened Parameters

  const Baseline := "-Xrs -Xmx2048m -Dhudson.lifecycle=hudson.lifecycle.WindowsServiceLifecycle "
  const LoaderPath := "-jar -Dloader.path=\"%base%\\..\\lib\",\"%base%\\..\\resources\" "
  /** The jar is found next to the `bin` directory that holds the executable. */
  const JarReference := "%BASE%\\..\\"

  function JvmPart(jvm: Option<string>): string
  {
    if Present(jvm) then jvm.value + " " else ""
  }

  function AppPart(app: Option<string>): string
  {
    if Present(app) then " " + app.value else ""
  }

  /** Everything up to and including the jar's file name. */
  function Head(jvm: Option<string>, jarFileName: string): string
  {
    JvmPart(jvm) + (Baseline + LoaderPath + (JarReference + jarFileName))
  }

  /** The `<arguments>` value: extra JVM options first, then the fixed JVM flags,
      the `-jar` clause with the jar's file name, and extra application arguments
      last. Absent or empty options leave no trace, not even a space. */
  function Arguments(jvm: Option<string>, jarFileName: string, app: Option<string>): (r: string)
    ensures HasPrefix(r, JvmPart(jvm) + Baseline + LoaderPath)
    ensures HasSuffix(r, JarReference + jarFileName + AppPart(app))
    ensures |r| == |JvmPart(jvm) + Baseline + LoaderPath| + |JarReference + jarFileName + AppPart(app)|
  {
    ArgumentsLayout(JvmPart(jvm), Baseline, LoaderPath, JarReference, jarFileName, AppPart(app));
    Head(jvm, jarFileName) + AppPart(app)
  }

  lemma ArgumentsLayout(jvm: string, base: string, loader: string, reference: string, jar: string, app: string)
    ensures HasPrefix(jvm + (base + loader + (reference + jar)) + app, jvm + base + loader)
    ensures HasSuffix(jvm + (base + loader + (reference + jar)) + app, reference + jar + app)
  {
    var r := jvm + (base + loader + (reference + jar)) + app;
    assert r == (jvm + base + loader) + (reference + jar + app);
    PrefixOfConcat(jvm + base + loader, reference + jar + app);
    assert r == (jvm + base + loader) + (reference + jar + app);
    SuffixOfConcat(jvm + base + loader, reference + jar + app);
  }

  /** With neither option set, the value starts with the fixed flags and ends
      exactly with the jar's file name. */
  lemma ArgumentsWithoutOptions(jvm: Option<string>, jarFileName: string, app: Option<string>)
    requires !Present(jvm) && !Present(app)
    ensures HasPrefix(Arguments(jvm, jarFileName, app), Baseline + LoaderPath)
    ensures HasSuffix(Arguments(jvm, jarFileName, app), JarReference + jarFileName)
  {
    assert JvmPart(jvm) + Baseline + LoaderPath == Baseline + LoaderPath;
    assert JarReference + jarFileName + AppPart(app) == JarReference + jarFileName;
  }

  /** An attribute `name="value"`. */
  datatype Attr = Attr(name: string, value: string)

  /** One line of the descriptor, at a nesting depth of two spaces per level. */
  datatype XmlLine =
    | Open(depth: nat, tag: string, attrs: seq<Attr>)
    | Close(depth: nat, tag: string)
    | Leaf(depth: nat, tag: string, text: string)
    | SelfClosing(depth: nat, tag: string, attrs: seq<Attr>)
    | Note(depth: nat, text: string)

  function Indent(depth: nat): string
  {
    if depth == 0 then "" else "  " + Indent(depth - 1)
  }

  function AttrText(attrs: seq<Attr>): string
  {
    if attrs == [] then "" else " " + attrs[0].name + "=\"" + attrs[0].value + "\"" + AttrText(attrs[1..])
  }

  /** The text the writer emits for a line. Values are embedded as they are: the
      plugin escapes nothing. */
  function LineText(l: XmlLine): string
  {
    match l
    case Open(d, t, a) => Indent(d) + "<" + t + AttrText(a) + ">\n"
    case Close(d, t) => Indent(d) + "</" + t + ">\n"
    case Leaf(d, t, x) => Indent(d) + "<" + t + ">" + x + "</" + t + ">\n"
    case SelfClosing(d, t, a) => Indent(d) + "<" + t + AttrText(a) + "/>\n"
    case Note(d, x) => Indent(d) + "<!-- " + x + " -->\n"
  }

  function Render(ls: seq<XmlLine>): string
  {
    if ls == [] then "" else LineText(ls[0]) + Render(ls[1..])
  }

  lemma {:induction false} RenderAppend(a: seq<XmlLine>, b: seq<XmlLine>)
    ensures Render(a + b) == Render(a) + Render(b)
    decreases |a|
  {
    if a == [] {
      assert a + b == b;
    } else {
      assert (a + b)[0] == a[0] && (a + b)[1..] == a[1..] + b;
      RenderAppend(a[1..], b);
    }
  }

  lemma RenderSnoc(ls: seq<XmlLine>, l: XmlLine)
    ensures Render(ls + [l]) == Render(ls) + LineText(l)
  {
    RenderAppend(ls, [l]);
    assert Render([l]) == LineText(l) + Render([]);
  }

  const LogDirectory := "%base%\\..\\logs\\out"
  const KillerClass := "winsw.Plugins.RunawayProcessKiller.RunawayProcessKillerExtension"

  /** The elements directly inside `<service>` before `<extensions>`, as written. */
  function Properties(id: string, name: string, description: string, executable: string, arguments: string): seq<XmlLine>
  {
    [ Leaf(1, "id", id),
      Leaf(1, "name", name),
      Leaf(1, "description", description),
      Leaf(1, "executable", executable),
      Leaf(1, "arguments", arguments),
      Leaf(1, "logpath", LogDirectory),
      Leaf(1, "logmode", "rotate"),
      Leaf(1, "logsize", "100MB"),
      Leaf(1, "logkeepfiles", "100") ]
  }

  /** The runaway-process-killer extension, keyed by a pid file in the fixed log directory. */
  function Extensions(id: string): seq<XmlLine>
  {
    [ Open(1, "extensions", []),
      Note(2, "Runaway Process Killer Extension"),
      Open(2, "extension", [Attr("enabled", "true"), Attr("className", KillerClass), Attr("id", "killOnStartup")]),
      Leaf(3, "pidfile", LogDirectory + "\\" + id + ".pid"),
      Leaf(3, "stopTimeout", "10000"),
      Leaf(3, "stopParentFirst", "false"),
      Close(2, "extension"),
      Close(1, "extensions") ]
  }

  /** The lines of `generateXmlConfig`, in the order they are written: the
      `<logpath>` is the fixed `%base%\\..\\logs\\out`, and a restart on failure after
      ten seconds closes the service. */
  function DescriptorLines(id: string, name: string, description: string, executable: string, arguments: string): seq<XmlLine>
  {
    [Open(0, "service", [])]
      + Properties(id, name, description, executable, arguments)
      + Extensions(id)
      + [SelfClosing(1, "onfailure", [Attr("action", "restart"), Attr("delay", "10 sec")]), Close(0, "service")]
  }

  /** The document `generateXmlConfig` writes. `logPathValue` is accepted and
      ignored, exactly as in the plugin. */
  function XmlConfig(cfg: Config, id: string, jarFileName: string, logPathValue: string): string
  {
    Render(DescriptorLines(id, JavaText(cfg.serviceName), JavaText(cfg.serviceDescription), JavaText(cfg.javaPath),
                           Arguments(cfg.additionalJvmOptions, jarFileName, cfg.additionalAppArgs)))
  }

  /** Reads back the value of a `<tag>value</tag>` line at the given depth. */
  function ParseLeaf(s: string, depth: nat, tag: string): Option<string>
  {
    var open := Indent(depth) + "<" + tag + ">";
    var close := "</" + tag + ">\n";
    if |open| + |close| <= |s| && s[..|open|] == open && s[|s| - |close|..] == close
    then Some(s[|open|..|s| - |close|])
    else None
  }

  /** A value is written verbatim: it can be read back from its line, whatever it holds. */
  lemma LeafRoundTrip(depth: nat, tag: string, value: string)
    ensures ParseLeaf(LineText(Leaf(depth, tag, value)), depth, tag) == Some(value)
  {
    var open := Indent(depth) + "<" + tag + ">";
    var close := "</" + tag + ">\n";
    var s := LineText(Leaf(depth, tag, value));
    assert s == open + value + close;
    assert s[..|open|] == open;
    assert s[|s| - |close|..] == close;
    assert s[|open|..|s| - |close|] == value;
  }

  /** The elements still open after the lines, given those open before, or
      `None` when a line's depth or a closing tag does not match. */
  function OpenAfter(ls: seq<XmlLine>, open: seq<string>): Option<seq<string>>
    decreases |ls|
  {
    if ls == [] then Some(open)
    else match ls[0]
      case Open(d, t, _) => if d == |open| then OpenAfter(ls[1..], open + [t]) else None
      case Close(d, t) =>
        if |open| > 0 && d == |open| - 1 && open[|open| - 1] == t then OpenAfter(ls[1..], open[..|open| - 1]) else None
      case Leaf(d, _, _) => if d == |open| then OpenAfter(ls[1..], open) else None
      case SelfClosing(d, _, _) => if d == |open| then OpenAfter(ls[1..], open) else None
      case Note(d, _) => if d == |open| then OpenAfter(ls[1..], open) else None
  }

  /** Every opened element is closed, innermost first, and each line sits at the
      depth of the elements open around it. */
  predicate Nested(ls: seq<XmlLine>)
  {
    OpenAfter(ls, []) == Some([])
  }

  lemma {:induction false} OpenAfterAppend(a: seq<XmlLine>, b: seq<XmlLine>, open: seq<string>)
    ensures OpenAfter(a + b, open) == match OpenAfter(a, open) case None => None case Some(o) => OpenAfter(b, o)
    decreases |a|
  {
    if a != [] {
      assert (a + b)[0] == a[0] && (a + b)[1..] == a[1..] + b;
      match a[0]
      case Open(d, t, _) => OpenAfterAppend(a[1..], b, open + [t]);
      case Close(d, t) => if |open| > 0 { OpenAfterAppend(a[1..], b, open[..|open| - 1]); }
      case Leaf(d, _, _) => OpenAfterAppend(a[1..], b, open);
      case SelfClosing(d, _, _) => OpenAfterAppend(a[1..], b, open);
      case Note(d, _) => OpenAfterAppend(a[1..], b, open);
    } else {
      assert a + b == b;
    }
  }

  /** The tags of the elements directly inside the root, in document order. */
  function ChildTags(ls: seq<XmlLine>): seq<string>
  {
    if ls == [] then []
    else (match ls[0]
          case Open(1, t, _) => [t]
          case Leaf(1, t, _) => [t]
          case SelfClosing(1, t, _) => [t]
          case _ => []) + ChildTags(ls[1..])
  }

  lemma {:induction false} ChildTagsAppend(a: seq<XmlLine>, b: seq<XmlLine>)
    ensures ChildTags(a + b) == ChildTags(a) + ChildTags(b)
    decreases |a|
  {
    if a != [] {
      assert (a + b)[0] == a[0] && (a + b)[1..] == a[1..] + b;
      ChildTagsAppend(a[1..], b);
    } else {
      assert a + b == b;
    }
  }

  /** The text of the first `<tag>` leaf. */
  function ValueOf(ls: seq<XmlLine>, tag: string): Option<string>
  {
    if ls == [] then None
    else if ls[0].Leaf? && ls[0].tag == tag then Some(ls[0].text)
    else ValueOf(ls[1..], tag)
  }

  lemma {:induction false} ValueOfAppend(a: seq<XmlLine>, b: seq<XmlLine>, tag: string)
    ensures ValueOf(a + b, tag) == if ValueOf(a, tag).Some? then ValueOf(a, tag) else ValueOf(b, tag)
    decreases |a|
  {
    if a != [] {
      assert (a + b)[0] == a[0] && (a + b)[1..] == a[1..] + b;
      ValueOfAppend(a[1..], b, tag);
    } else {
      assert a + b == b;
    }
  }

  const ServiceChildTags := ["id", "name", "description", "executable", "arguments", "logpath",
                             "logmode", "logsize", "logkeepfiles", "extensions", "onfailure"]

  /** The descriptor is one `<service>` element whose lines are properly nested. */
  lemma DescriptorNested(id: string, name: string, description: string, executable: string, arguments: string)
    ensures Nested(DescriptorLines(id, name, description, executable, arguments))
  {
    var head := [Open(0, "service", [])];
    var props := Properties(id, name, description, executable, arguments);
    var ext := Extensions(id);
    var tail := [SelfClosing(1, "onfailure", [Attr("action", "restart"), Attr("delay", "10 sec")]), Close(0, "service")];
    assert OpenAfter(head, []) == Some(["service"]) by {
      assert head[1..] == [] && [] + ["service"] == ["service"];
    }
    assert OpenAfter(props, ["service"]) == Some(["service"]) by { PropertiesOpen(props); }
    assert OpenAfter(ext, ["service"]) == Some(["service"]) by { ExtensionsOpen(id); }
    assert OpenAfter(tail, ["service"]) == Some([]) by {
      assert tail[1..][1..] == [] && ["service"][..0] == [];
    }
    OpenAfterAppend(head, props, []);
    OpenAfterAppend(head + props, ext, []);
    OpenAfterAppend(head + props + ext, tail, []);
  }

  /** The children of `<service>` come in the fixed order WinSW reads them. */
  lemma DescriptorChildren(id: string, name: string, description: string, executable: string, arguments: string)
    ensures ChildTags(DescriptorLines(id, name, description, executable, arguments)) == ServiceChildTags
  {
    var head := [Open(0, "service", [])];
    var props := Properties(id, name, description, executable, arguments);
    var ext := Extensions(id);
    var tail := [SelfClosing(1, "onfailure", [Attr("action", "restart"), Attr("delay", "10 sec")]), Close(0, "service")];
    assert ChildTags(head) == [] by { assert head[1..] == []; }
    assert ChildTags(props) == ServiceChildTags[..9] by { PropertiesTags(id, name, description, executable, arguments); }
    assert ChildTags(ext) == ["extensions"] by { ExtensionsTags(id); }
    assert ChildTags(tail) == ["onfailure"] by { assert tail[1..][1..] == []; }
    ChildTagsAppend(head, props);
    ChildTagsAppend(head + props, ext);
    ChildTagsAppend(head + props + ext, tail);
    assert ServiceChildTags == ServiceChildTags[..9] + ["extensions"] + ["onfailure"];
  }

  lemma PropertiesOpen(props: seq<XmlLine>)
    requires |props| == 9 && forall k | 0 <= k < 9 :: props[k].Leaf? && props[k].depth == 1
    ensures OpenAfter(props, ["service"]) == Some(["service"])
  {
    var k := 9;
    while k > 0
      invariant 0 <= k <= 9
      invariant OpenAfter(props[k..], ["service"]) == Some(["service"])
    {
      k := k - 1;
      assert props[k..][1..] == props[k + 1..];
    }
  }

  lemma PropertiesTags(id: string, name: string, description: string, executable: string, arguments: string)
    ensures ChildTags(Properties(id, name, description, executable, arguments)) == ServiceChildTags[..9]
  {
    LeafTags(Properties(id, name, description, executable, arguments), ServiceChildTags[..9]);
  }

  /** Top-level leaves contribute their tags, in order. */
  lemma {:induction false} LeafTags(ls: seq<XmlLine>, tags: seq<string>)
    requires |ls| == |tags|
    requires forall k | 0 <= k < |ls| :: ls[k].Leaf? && ls[k].depth == 1 && ls[k].tag == tags[k]
    ensures ChildTags(ls) == tags
    decreases |ls|
  {
    if ls != [] {
      LeafTags(ls[1..], tags[1..]);
      assert tags == [tags[0]] + tags[1..];
    }
  }

  lemma ExtensionsTags(id: string)
    ensures ChildTags(Extensions(id)) == ["extensions"]
  {
    var ls := Extensions(id);
    var k := 8;
    while k > 1
      invariant 1 <= k <= 8
      invariant ChildTags(ls[k..]) == []
    {
      k := k - 1;
      assert ls[k..][1..] == ls[k + 1..];
    }
    assert ls[0..][1..] == ls[1..];
    assert ls[0..] == ls;
  }

  lemma ExtensionsOpen(id: string)
    ensures OpenAfter(Extensions(id), ["service"]) == Some(["service"])
  {
    var ls := Extensions(id);
    var o1, o2 := ["service", "extensions"], ["service", "extensions", "extension"];
    assert ["service"] + ["extensions"] == o1 && o1 + ["extension"] == o2;
    assert o2[..2] == o1 && o1[..1] == ["service"];
    assert OpenAfter(ls[8..], ["service"]) == Some(["service"]);
    assert OpenAfter(ls[7..], o1) == Some(["service"]);
    assert OpenAfter(ls[6..], o2) == Some(["service"]);
    assert OpenAfter(ls[5..], o2) == Some(["service"]);
    assert OpenAfter(ls[4..], o2) == Some(["service"]);
    assert OpenAfter(ls[3..], o2) == Some(["service"]);
    assert OpenAfter(ls[2..], o1) == Some(["service"]);
    assert OpenAfter(ls[1..], o1) == Some(["service"]);
  }

  /** Looking a tag up skips every line that is not a leaf with that tag. */
  lemma {:induction false} ValueOfAt(ls: seq<XmlLine>, k: nat, tag: string)
    requires k < |ls| && ls[k].Leaf? && ls[k].tag == tag
    requires forall j | 0 <= j < k :: !ls[j].Leaf? || ls[j].tag != tag
    ensures ValueOf(ls, tag) == Some(ls[k].text)
  {
    if k > 0 {
      ValueOfAt(ls[1..], k - 1, tag);
    }
  }

  /** Each configured value appears, unchanged, as the text of its own element;
      the log directory and the pid file are fixed, whatever log path was passed. */
  lemma DescriptorValues(id: string, name: string, description: string, executable: string, arguments: string)
    ensures var ls := DescriptorLines(id, name, description, executable, arguments);
      && ValueOf(ls, "id") == Some(id)
      && ValueOf(ls, "name") == Some(name)
      && ValueOf(ls, "description") == Some(description)
      && ValueOf(ls, "executable") == Some(executable)
      && ValueOf(ls, "arguments") == Some(arguments)
      && ValueOf(ls, "logpath") == Some(LogDirectory)
      && ValueOf(ls, "pidfile") == Some(LogDirectory + "\\" + id + ".pid")
  {
    var props := Properties(id, name, description, executable, arguments);
    var ext := Extensions(id);
    ValueOfAt(props, 0, "id");
    ValueOfAt(props, 1, "name");
    ValueOfAt(props, 2, "description");
    ValueOfAt(props, 3, "executable");
    ValueOfAt(props, 4, "arguments");
    ValueOfAt(props, 5, "logpath");
    ValueOfAt(ext, 3, "pidfile");
    PropertiesLack(props, "pidfile");
    DescriptorLookup(id, name, description, executable, arguments, "id");
    DescriptorLookup(id, name, description, executable, arguments, "name");
    DescriptorLookup(id, name, description, executable, arguments, "description");
    DescriptorLookup(id, name, description, executable, arguments, "executable");
    DescriptorLookup(id, name, description, executable, arguments, "arguments");
    DescriptorLookup(id, name, description, executable, arguments, "logpath");
    DescriptorLookup(id, name, description, executable, arguments, "pidfile");
  }

  /** The fixed policies: rotating logs of at most 100MB, 100 files kept; the runaway
      process killer with a ten-second stop timeout that does not stop the parent
      first; and a restart ten seconds after a failure. */
  lemma DescriptorPolicy(id: string, name: string, description: string, executable: string, arguments: string)
    ensures var ls := DescriptorLines(id, name, description, executable, arguments);
      && ValueOf(ls, "logmode") == Some("rotate")
      && ValueOf(ls, "logsize") == Some("100MB")
      && ValueOf(ls, "logkeepfiles") == Some("100")
      && ValueOf(ls, "stopTimeout") == Some("10000")
      && ValueOf(ls, "stopParentFirst") == Some("false")
      && Open(2, "extension", [Attr("enabled", "true"), Attr("className", KillerClass), Attr("id", "killOnStartup")]) in ls
      && SelfClosing(1, "onfailure", [Attr("action", "restart"), Attr("delay", "10 sec")]) in ls
  {
    var props := Properties(id, name, description, executable, arguments);
    var ext := Extensions(id);
    ValueOfAt(props, 6, "logmode");
    ValueOfAt(props, 7, "logsize");
    ValueOfAt(props, 8, "logkeepfiles");
    ValueOfAt(ext, 4, "stopTimeout");
    ValueOfAt(ext, 5, "stopParentFirst");
    PropertiesLack(props, "stopTimeout");
    PropertiesLack(props, "stopParentFirst");
    DescriptorLookup(id, name, description, executable, arguments, "logmode");
    DescriptorLookup(id, name, description, executable, arguments, "logsize");
    DescriptorLookup(id, name, description, executable, arguments, "logkeepfiles");
    DescriptorLookup(id, name, description, executable, arguments, "stopTimeout");
    DescriptorLookup(id, name, description, executable, arguments, "stopParentFirst");
    var ls := DescriptorLines(id, name, description, executable, arguments);
    assert ls[1 + 9 + 2] == ext[2];
    assert ls[|ls| - 2] == SelfClosing(1, "onfailure", [Attr("action", "restart"), Attr("delay", "10 sec")]);
  }

  /** A lookup in the descriptor is answered by the properties, else by the extensions block. */
  lemma DescriptorLookup(id: string, name: string, description: string, executable: string, arguments: string, t: string)
    requires ValueOf(Properties(id, name, description, executable, arguments), t).Some?
          || ValueOf(Extensions(id), t).Some?
    ensures ValueOf(DescriptorLines(id, name, description, executable, arguments), t)
         == if ValueOf(Properties(id, name, description, executable, arguments), t).Some?
            then ValueOf(Properties(id, name, description, executable, arguments), t)
            else ValueOf(Extensions(id), t)
  {
    var head := [Open(0, "service", [])];
    var props := Properties(id, name, description, executable, arguments);
    var ext := Extensions(id);
    var tail := [SelfClosing(1, "onfailure", [Attr("action", "restart"), Attr("delay", "10 sec")]), Close(0, "service")];
    assert head[1..] == [];
    assert ValueOf(head, t) == None;
    ValueOfAppend(head, props, t);
    ValueOfAppend(head + props, ext, t);
    ValueOfAppend(head + props + ext, tail, t);
  }

  lemma PropertiesLack(props: seq<XmlLine>, t: string)
    requires forall k | 0 <= k < |props| :: !(props[k].Leaf? && props[k].tag == t)
    ensures ValueOf(props, t) == None
  {
    var k := |props|;
    while k > 0
      invariant 0 <= k <= |props|
      invariant ValueOf(props[k..], t) == None
    {
      k := k - 1;
      assert props[k..][1..] == props[k + 1..];
    }
  }
}
