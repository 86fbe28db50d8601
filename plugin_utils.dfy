/** Plugin-qualified references (`Plugin.path`) and the namespace lookup
    that resolves a plugin name to its root directory. */
module PluginUtils {
  import opened Text
  import opened Dicts

  /** A namespace map: PHP namespace (with `\`) to the plugin's root directory. */
  type NsMap = Dict<string>

  /** The result of `parseElementName`; `plugin` is `null` as `None`. */
  datatype ElementName = ElementName(plugin: Option<string>, path: string)

  /** `getPluginPath`: the map must be set, the key (with every `/` turned
      into `\`) present and its value non-empty. */
  function LookupPluginPath(nsMap: Option<NsMap>, ns: string): (r: Option<string>)
    ensures r.Some? <==>
      nsMap.Some? && NormalizeNamespace(ns) in nsMap.value.entries && nsMap.value.entries[NormalizeNamespace(ns)] != ""
    ensures r.Some? ==> r.value == nsMap.value.entries[NormalizeNamespace(ns)] && r.value != ""
  {
    match nsMap
    case None => None
    case Some(m) =>
      match Get(m, NormalizeNamespace(ns))
      case Some(p) => if p != "" then Some(p) else None
      case None => None
  }

  /** `namespace.replace(/\//g, '\\')`. */
  function NormalizeNamespace(ns: string): (r: string)
    ensures '/' !in r
  {
    ReplaceAll(ns, '/', '\\')
  }

  /** `A/B` and `A\B` resolve identically. */
  lemma PluginPathSlashInsensitive(nsMap: Option<NsMap>, ns: string)
    ensures LookupPluginPath(nsMap, ns) == LookupPluginPath(nsMap, NormalizeNamespace(ns))
  {
    assert NormalizeNamespace(NormalizeNamespace(ns)) == NormalizeNamespace(ns);
  }

  /** The module-level `namespaceMap` of the plugin helpers, `null` until set. */
  class PluginRegistry {
    var namespaceMap: Option<NsMap>

    constructor()
      ensures namespaceMap == None
    {
      namespaceMap := None;
    }

    method SetNamespaceMap(m: NsMap)
      modifies this
      ensures namespaceMap == Some(m)
    {
      namespaceMap := Some(m);
    }

    function GetPluginPath(ns: string): (r: Option<string>)
      reads this
      ensures namespaceMap.None? ==> r.None?
      ensures r.Some? ==> r.value != ""
    {
      LookupPluginPath(namespaceMap, ns)
    }
  }

  // ---------------------------------------------------------------------
  // parseElementName

  function DropExtension(parts: seq<string>): (r: seq<string>)
    requires |parts| >= 1
    ensures |r| >= 1
    ensures r == parts || (|parts| > 1 && r == parts[..|parts| - 1])
  {
    if |parts| > 1 && (parts[|parts| - 1] == "js" || parts[|parts| - 1] == "css") then parts[..|parts| - 1]
    else parts
  }

  function ParseElementName(name: string): (r: ElementName)
    ensures r.plugin.Some? ==> '.' !in r.plugin.value
    ensures '.' !in name ==> r == ElementName(None, name)
  {
    var parts := Split(name, ".");
    var kept := DropExtension(parts);
    SplitPiecesFree(name, '.');
    assert '.' !in name ==> parts == [name] by {
      if '.' !in name {
        NoCharNoOccurrence(name, '.');
        SplitWithout(name, ".");
      }
    }
    if |kept| > 1 then ElementName(Some(kept[0]), Join(kept[1..], "."))
    else ElementName(None, name)
  }

  /** With no extension segment dropped, plugin and path put back together
      give the name again. */
  lemma ParseElementNameRoundTrip(name: string)
    requires var parts := Split(name, "."); |parts| > 1 && parts[|parts| - 1] != "js" && parts[|parts| - 1] != "css"
    ensures ParseElementName(name).plugin.Some?
    ensures ParseElementName(name).plugin.value + "." + ParseElementName(name).path == name
  {
    var parts := Split(name, ".");
    JoinSplit(name, ".");
    assert Join(parts, ".") == parts[0] + "." + Join(parts[1..], ".");
  }

  /** A trailing `js`/`css` segment is removed before the plugin is split off. */
  lemma ParseElementNameExtension(name: string)
    requires var parts := Split(name, "."); |parts| > 2 && (parts[|parts| - 1] == "js" || parts[|parts| - 1] == "css")
    ensures var parts := Split(name, ".");
      ParseElementName(name) == ElementName(Some(parts[0]), Join(parts[1..|parts| - 1], "."))
  {
    var parts := Split(name, ".");
    assert DropExtension(parts)[1..] == parts[1..|parts| - 1];
  }

  /** With a single segment left after dropping the extension there is no
      plugin, and the path is the untrimmed name. */
  lemma ParseElementNameSingle(name: string)
    requires |DropExtension(Split(name, "."))| == 1
    ensures ParseElementName(name) == ElementName(None, name)
  {
  }

  lemma SplitTwo(a: string, b: string)
    requires '.' !in a && '.' !in b
    ensures Split(a + "." + b, ".") == [a, b]
  {
    var s := a + "." + b;
    assert OccursAt(s, ".", |a|);
    forall j | 0 <= j < |a| ensures !OccursAt(s, ".", j) {
      assert s[j] == a[j];
      assert s[j..j + 1] == [s[j]];
    }
    assert IndexOf(s, ".") == Some(|a|);
    assert s[..|a|] == a && s[|a| + 1..] == b;
    NoCharNoOccurrence(b, '.');
    SplitWithout(b, ".");
  }

  lemma SplitThree(a: string, b: string, c: string)
    requires '.' !in a && '.' !in b && '.' !in c
    ensures Split(a + "." + b + "." + c, ".") == [a, b, c]
  {
    var s := a + "." + b + "." + c;
    assert OccursAt(s, ".", |a|);
    forall j | 0 <= j < |a| ensures !OccursAt(s, ".", j) {
      assert s[j] == a[j];
      assert s[j..j + 1] == [s[j]];
    }
    assert IndexOf(s, ".") == Some(|a|);
    assert s[..|a|] == a && s[|a| + 1..] == b + "." + c;
    SplitTwo(b, c);
  }

  /** `Blog.app.css` is the stylesheet `app` of plugin `Blog`. */
  lemma ExampleBlogAppCss()
    ensures ParseElementName("Blog.app.css") == ElementName(Some("Blog"), "app")
  {
    BlogAppCssPieces();
    ParseElementNameOfPieces("Blog.app.css", ["Blog", "app", "css"]);
    assert ["Blog", "app", "css"][..2] == ["Blog", "app"];
    assert ["Blog", "app"][1..] == ["app"];
  }

  lemma BlogAppCssPieces()
    ensures Split("Blog.app.css", ".") == ["Blog", "app", "css"]
  {
    SplitThree("Blog", "app", "css");
    assert "Blog.app.css" == "Blog" + "." + "app" + "." + "css";
  }

  /** `ParseElementName` given the pieces of its argument. */
  lemma ParseElementNameOfPieces(name: string, parts: seq<string>)
    requires Split(name, ".") == parts
    ensures var kept := DropExtension(parts);
      ParseElementName(name) == if |kept| > 1 then ElementName(Some(kept[0]), Join(kept[1..], ".")) else ElementName(None, name)
  {
  }

  /** `app.js` keeps its full name as the path and has no plugin. */
  lemma ExampleAppJs()
    ensures ParseElementName("app.js") == ElementName(None, "app.js")
  {
    SplitTwo("app", "js");
    assert "app.js" == "app" + "." + "js";
  }

  // ---------------------------------------------------------------------
  // plugin names of autoload namespaces

  /** `namespace.split('\\').slice(0, 2).join('/')`. */
  function PluginName(ns: string): string {
    var parts := Split(ns, "\\");
    Join(parts[..if |parts| < 2 then |parts| else 2], "/")
  }

  /** A two-level namespace names its plugin with `/`; deeper levels are dropped. */
  lemma PluginNameTwoLevels(vendor: string, name: string, more: seq<string>)
    requires '\\' !in vendor && '\\' !in name
    ensures PluginName(Join([vendor, name] + more, "\\")) == vendor + "/" + name
  {
    var parts := Split(Join([vendor, name] + more, "\\"), "\\");
    PluginNamePrefix(vendor, name, more);
    assert parts[..2] == [vendor, name];
    assert [vendor, name][1..] == [name];
    assert Join([vendor, name], "/") == vendor + "/" + name;
  }

  /** The first two pieces of `vendor\name\...` are `vendor` and `name`,
      whatever follows. */
  lemma PluginNamePrefix(vendor: string, name: string, more: seq<string>)
    requires '\\' !in vendor && '\\' !in name
    ensures var parts := Split(Join([vendor, name] + more, "\\"), "\\");
      |parts| >= 2 && parts[0] == vendor && parts[1] == name
  {
    var tail := Join([name] + more, "\\");
    assert ([vendor, name] + more)[1..] == [name] + more;
    assert Join([vendor, name] + more, "\\") == vendor + "\\" + tail;
    SplitHead(vendor, tail);
    if more == [] {
      assert tail == name;
      NoCharNoOccurrence(name, '\\');
      SplitWithout(name, "\\");
    } else {
      assert ([name] + more)[1..] == more;
      SplitHead(name, Join(more, "\\"));
    }
  }

  /** Splitting `a\b` with `a` free of `\` gives `a` and then the pieces of `b`. */
  lemma SplitHead(a: string, b: string)
    requires '\\' !in a
    ensures Split(a + "\\" + b, "\\") == [a] + Split(b, "\\")
  {
    var s := a + "\\" + b;
    assert OccursAt(s, "\\", |a|);
    forall j | 0 <= j < |a| ensures !OccursAt(s, "\\", j) {
      assert s[j] == a[j];
      assert s[j..j + 1] == [s[j]];
    }
    assert IndexOf(s, "\\") == Some(|a|);
    assert s[..|a|] == a && s[|a| + 1..] == b;
  }
}
