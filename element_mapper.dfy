/** The element index: every `.php` file below `templates/element` of the
    application and of each autoloaded plugin, and below every
    `templates/plugin/<Plugin...>/element` override directory, filed under the
    name `$this->element()` uses for it. */
module ElementMapper {
  import opened Text
  import opened Dicts
  import opened NodePath
  import opened FileSystem
  import opened PluginUtils

  /** `path.extname(name).toLowerCase() === '.php'`. */
  predicate IsPhp(name: string) {
    Lower(ExtName(name)) == ".php"
  }

  /** `pluginName ? `${pluginName}.${elementPath}` : elementPath`. */
  function ElementKey(pluginName: string, elementPath: string): (r: string)
    ensures pluginName == "" ==> r == elementPath
    ensures pluginName != "" ==> StartsWith(r, pluginName + ".") && r[|pluginName| + 1..] == elementPath
  {
    if pluginName != "" then pluginName + "." + elementPath else elementPath
  }

  /** The key a file is filed under: its relative path without `.php`. */
  function EntryKey(pluginName: string, e: Entry): string {
    ElementKey(pluginName, DropLast(e.rel, 4))
  }

  /** The key/file pairs a scan pushes, in listing order. */
  function ElementPairs(pluginName: string, es: seq<Entry>): (r: seq<(string, string)>)
    ensures |r| <= |es|
    decreases |es|
  {
    if es == [] then [] else EntryPairs(pluginName, es[0]) + ElementPairs(pluginName, es[1..])
  }

  /** What one file pushes: itself under its key, if it is a `.php` file. */
  function EntryPairs(pluginName: string, e: Entry): (r: seq<(string, string)>)
    ensures |r| <= 1
  {
    if IsPhp(e.name) then [(EntryKey(pluginName, e), e.full)] else []
  }

  lemma {:induction false} ElementPairsConcat(pluginName: string, a: seq<Entry>, b: seq<Entry>)
    ensures ElementPairs(pluginName, a + b) == ElementPairs(pluginName, a) + ElementPairs(pluginName, b)
    decreases |a|
  {
    if a == [] {
      assert a + b == b;
    } else {
      assert (a + b)[0] == a[0] && (a + b)[1..] == a[1..] + b;
      ElementPairsConcat(pluginName, a[1..], b);
    }
  }

  /** A pair is pushed exactly for each `.php` file, under its key. */
  lemma {:induction false} ElementPairsMember(pluginName: string, es: seq<Entry>, k: string, p: string)
    ensures (k, p) in ElementPairs(pluginName, es) <==>
      exists e :: e in es && IsPhp(e.name) && e.full == p && k == EntryKey(pluginName, e)
    decreases |es|
  {
    if es != [] {
      ElementPairsMember(pluginName, es[1..], k, p);
      assert forall e :: e in es <==> e == es[0] || e in es[1..];
    }
  }

  /** One `scanElementDirectory` over a listing's files; it always completes. */
  function ElementScan(ix: Index, pluginName: string, es: seq<Entry>): (Index, bool) {
    (AppendAll(ix, ElementPairs(pluginName, es)), true)
  }

  /** After a scan each key lists the files it listed before, followed by the
      scan's `.php` files carrying that key, in listing order. */
  lemma ElementScanLookup(ix: Index, pluginName: string, es: seq<Entry>, k: string)
    ensures Lookup(ElementScan(ix, pluginName, es).0, k) == Lookup(ix, k) + PathsFor(ElementPairs(pluginName, es), k)
    ensures forall p :: p in Lookup(ElementScan(ix, pluginName, es).0, k) <==> (p in Lookup(ix, k) ||
      exists e :: e in es && IsPhp(e.name) && e.full == p && k == EntryKey(pluginName, e))
  {
    AppendAllLookup(ix, ElementPairs(pluginName, es), k);
    forall p ensures (k, p) in ElementPairs(pluginName, es) <==>
      exists e :: e in es && IsPhp(e.name) && e.full == p && k == EntryKey(pluginName, e)
    {
      ElementPairsMember(pluginName, es, k, p);
    }
  }

  /** Any run of scans keeps the map well formed (every key once, no empty list). */
  lemma {:induction false} ElementRunWellFormed(ix: Index, steps: seq<Step>)
    requires WellFormed(ix)
    ensures WellFormed(RunSteps(ix, steps, ElementScan).0)
    decreases |steps|
  {
    if steps != [] {
      match steps[0]
      case NotADirectory(_) =>
      case Scan(plugin, cs, path) =>
        var es := Walk(cs, path, "");
        AppendAllWellFormed(ix, ElementPairs(plugin, es));
        ElementRunWellFormed(ElementScan(ix, plugin, es).0, steps[1..]);
    }
  }

  /** The key a plugin element is filed under is read back by `parseElementName`
      as that plugin and that path. */
  lemma ElementKeyParses(pluginName: string, elementPath: string)
    requires pluginName != "" && '.' !in pluginName && '.' !in elementPath
    requires elementPath != "js" && elementPath != "css"
    ensures ParseElementName(ElementKey(pluginName, elementPath)) == ElementName(Some(pluginName), elementPath)
  {
    SplitTwo(pluginName, elementPath);
    assert DropExtension([pluginName, elementPath]) == [pluginName, elementPath];
    assert [pluginName, elementPath][1..] == [elementPath];
  }

  // ---------------------------------------------------------------------
  // the scans generateElementMap runs

  /** `if (fs.existsSync(<dir>/templates/element)) scanElementDirectory(..., pluginName)`. */
  function ElementDirStep(fs: Node, dir: string, pluginName: string): seq<Step> {
    var p := Join3(dir, "templates", "element");
    StepAt(Locate(fs, p), p, pluginName)
  }

  /** The element directory of `dir`, then the overrides below its `templates/plugin`. */
  function DirSteps(fs: Node, dir: string, pluginName: string): seq<Step> {
    ElementDirStep(fs, dir, pluginName) + OverrideRoot(fs, Join3(dir, "templates", "plugin"), "element")
  }

  /** The steps of each autoload entry, in key order. */
  function PluginSteps(fs: Node, items: seq<(string, string)>): (r: seq<seq<Step>>)
    ensures |r| == |items|
    ensures forall i :: 0 <= i < |items| ==> r[i] == DirSteps(fs, items[i].1, PluginName(items[i].0))
  {
    seq(|items|, i requires 0 <= i < |items| => DirSteps(fs, items[i].1, PluginName(items[i].0)))
  }

  /** The application first, then every plugin. */
  function ElementPlan(fs: Node, root: string, pluginMap: Dict<string>): seq<Step>
    requires Valid(pluginMap)
  {
    DirSteps(fs, root, "") + Flatten(PluginSteps(fs, Items(pluginMap)))
  }

  /** Whatever its outcome, generating the map leaves it well formed. */
  lemma ElementPlanWellFormed(fs: Node, root: string, pluginMap: Dict<string>)
    requires Valid(pluginMap)
    ensures WellFormed(RunSteps(Empty(), ElementPlan(fs, root, pluginMap), ElementScan).0)
  {
    var e: Index := Empty();
    assert WellFormed(e);
    ElementRunWellFormed(e, ElementPlan(fs, root, pluginMap));
  }

  /** A `.php` file directly in the application's `templates/element` is
      filed under its name without the extension. */
  lemma AppElementKey(n: string, full: string)
    requires |n| > 4 && IsPhp(n) && '\\' !in n
    ensures EntryKey("", Entry(n, full, RelJoin("", n))) == n[..|n| - 4]
  {
    assert RelJoin("", n) == n;
  }

  // ---------------------------------------------------------------------
  // the module state

  class ElementIndex {
    /** `elementMap`. */
    var elementMap: Index

    constructor()
      ensures elementMap == Empty()
    {
      elementMap := Empty();
    }

    /** `getElementPaths(name)`. */
    function GetElementPaths(name: string): (r: seq<string>)
      reads this
      ensures name !in elementMap.entries ==> r == []
      ensures name in elementMap.entries ==> r == elementMap.entries[name]
    {
      Lookup(elementMap, name)
    }

    /** `getAllElementNames()`. */
    function GetAllElementNames(): (r: seq<string>)
      reads this
      ensures Valid(elementMap) ==> forall k :: k in r <==> k in elementMap.entries
    {
      Names(elementMap)
    }

    /** `generateElementMap`: the map rebuilt from scratch; `ok` is false when
        a scan threw (a directory to scan that is a regular file), and the map
        then holds what was added before. */
    method GenerateElementMap(fs: Node, root: string, pluginMap: Dict<string>) returns (ok: bool)
      requires Valid(pluginMap)
      modifies this
      ensures (elementMap, ok) == RunSteps(Empty(), ElementPlan(fs, root, pluginMap), ElementScan)
    {
      elementMap := Empty();
      ghost var init := elementMap;
      var items := Items(pluginMap);
      ghost var app := DirSteps(fs, root, "");
      ghost var rest := Flatten(PluginSteps(fs, items));
      ok := ScanDirSteps(fs, root, "");
      if !ok {
        RunStepsStop(init, app, rest, ElementScan);
        return;
      }
      ghost var mid := elementMap;
      ok := ScanPlugins(fs, items);
      RunStepsThen(init, app, rest, mid, ElementScan);
    }

    /** The loop over the plugin map's entries, in its order. */
    method ScanPlugins(fs: Node, items: seq<(string, string)>) returns (ok: bool)
      modifies this
      ensures (elementMap, ok) == RunSteps(old(elementMap), Flatten(PluginSteps(fs, items)), ElementScan)
    {
      ghost var m := elementMap;
      ghost var ss := PluginSteps(fs, items);
      ok := true;
      var i := 0;
      RunNone(m, ss, ElementScan);
      while i < |items|
        invariant 0 <= i <= |items|
        invariant (elementMap, true) == RunSteps(m, Flatten(ss[..i]), ElementScan)
      {
        ghost var before := elementMap;
        var pluginName := PluginName(items[i].0);
        ok := ScanDirSteps(fs, items[i].1, pluginName);
        RunNext(m, ss, i, before, elementMap, ok, ElementScan);
        if !ok {
          return;
        }
        i := i + 1;
      }
      FlattenAll(ss);
    }

    /** The body shared by the application and each plugin: its element
        directory, then its plugin overrides. */
    method ScanDirSteps(fs: Node, dir: string, pluginName: string) returns (ok: bool)
      modifies this
      ensures (elementMap, ok) == RunSteps(old(elementMap), DirSteps(fs, dir, pluginName), ElementScan)
    {
      ghost var m := elementMap;
      var elementPath := Join3(dir, "templates", "element");
      ok := true;
      if Exists(fs, elementPath) {
        ok := ScanElementDirectory(Locate(fs, elementPath), elementPath, pluginName);
      }
      if !ok {
        RunStepsStop(m, ElementDirStep(fs, dir, pluginName), OverrideRoot(fs, Join3(dir, "templates", "plugin"), "element"), ElementScan);
        return;
      }
      ghost var mid := elementMap;
      var overridePath := Join3(dir, "templates", "plugin");
      if Exists(fs, overridePath) {
        ok := ScanPluginOverrides(fs, overridePath);
      }
      RunStepsThen(m, ElementDirStep(fs, dir, pluginName), OverrideRoot(fs, overridePath, "element"), mid, ElementScan);
    }

    /** `scanElementDirectory(dirPath, pluginName)` where `found` is what is
        at `dirPath`: nothing if it is missing, a failure if it is a regular
        file, otherwise every file below it. */
    method ScanElementDirectory(found: Option<Node>, dirPath: string, pluginName: string) returns (ok: bool)
      modifies this
      ensures (elementMap, ok) == RunSteps(old(elementMap), StepAt(found, dirPath, pluginName), ElementScan)
    {
      ghost var m := elementMap;
      match found
      case None =>
        ok := true;
      case Some(File(_)) =>
        ok := false;
      case Some(Dir(_, cs)) =>
        ScanDir(cs, dirPath, "", pluginName);
        ok := true;
        RunOne(m, Scan(pluginName, cs, dirPath), ElementScan);
    }

    /** The nested `scanDir(currentPath, relativePath)`. */
    method ScanDir(cs: seq<Node>, path: string, rel: string, pluginName: string)
      modifies this
      ensures elementMap == AppendAll(old(elementMap), ElementPairs(pluginName, Walk(cs, path, rel)))
      decreases cs, 1
    {
      var i := 0;
      while i < |cs|
        invariant 0 <= i <= |cs|
        invariant elementMap == AppendAll(old(elementMap), ElementPairs(pluginName, Walk(cs[..i], path, rel)))
        decreases |cs| - i
      {
        ScanEntry(cs[i], path, rel, pluginName);
        ElementWalkSnoc(old(elementMap), cs, i, path, rel, pluginName);
        i := i + 1;
      }
      assert cs[..|cs|] == cs;
    }

    /** One entry of a listing: a directory is scanned recursively, a `.php`
        file is pushed under its key. */
    method ScanEntry(c: Node, path: string, rel: string, pluginName: string)
      modifies this
      ensures elementMap == AppendAll(old(elementMap), ElementPairs(pluginName, WalkNode(c, path, rel)))
      decreases c, 0
    {
      var full := JoinPath(path, c.name);
      var r := RelJoin(rel, c.name);
      match c {
        case Dir(_, sub) =>
          ScanDir(sub, full, r, pluginName);
        case File(n) =>
          var e := Entry(n, full, r);
          assert [e][1..] == [];
          if IsPhp(n) {
            var elementPath := DropLast(r, 4);
            var key := ElementKey(pluginName, elementPath);
            elementMap := Append(elementMap, key, full);
            assert ElementPairs(pluginName, [e]) == [(key, full)];
          } else {
            assert ElementPairs(pluginName, [e]) == [];
          }
      }
    }

    /** `scanPluginOverrides(pluginPath)`. */
    method ScanPluginOverrides(fs: Node, pluginPath: string) returns (ok: bool)
      modifies this
      ensures (elementMap, ok) == RunSteps(old(elementMap), OverrideRoot(fs, pluginPath, "element"), ElementScan)
    {
      ghost var m := elementMap;
      match Locate(fs, pluginPath)
      case None =>
        ok := true;
      case Some(File(_)) =>
        ok := false;
        RunOne(m, NotADirectory(pluginPath), ElementScan);
      case Some(Dir(_, cs)) =>
        ok := ScanNestedPlugins(cs, pluginPath, []);
    }

    /** The nested `scanNestedPlugins(currentPath, currentNamespace)`. */
    method ScanNestedPlugins(cs: seq<Node>, path: string, ns: seq<string>) returns (ok: bool)
      modifies this
      ensures (elementMap, ok) == RunSteps(old(elementMap), OverrideSteps(cs, path, ns, "element"), ElementScan)
      decreases cs, 1
    {
      ghost var m := elementMap;
      ghost var ss := OverrideNodes(cs, path, ns, "element");
      OverrideFlatten(cs, path, ns, "element");
      ok := true;
      var i := 0;
      RunNone(m, ss, ElementScan);
      while i < |cs|
        invariant 0 <= i <= |cs|
        invariant (elementMap, true) == RunSteps(m, Flatten(ss[..i]), ElementScan)
        decreases |cs| - i
      {
        ghost var before := elementMap;
        ok := ScanNestedItem(cs[i], path, ns);
        RunNext(m, ss, i, before, elementMap, ok, ElementScan);
        if !ok {
          return;
        }
        i := i + 1;
      }
      FlattenAll(ss);
    }

    /** One entry of an override listing: a directory's `element` entry is
        scanned under the namespace so far, then the directory is descended. */
    method ScanNestedItem(c: Node, path: string, ns: seq<string>) returns (ok: bool)
      modifies this
      ensures (elementMap, ok) == RunSteps(old(elementMap), OverrideNode(c, path, ns, "element"), ElementScan)
      decreases c, 0
    {
      ghost var m := elementMap;
      match c {
        case File(_) =>
          ok := true;
        case Dir(n, sub) =>
          var fullItemPath := JoinPath(path, n);
          var updated := ns + [n];
          var elementPath := JoinPath(fullItemPath, "element");
          ghost var here := StepAt(Child(sub, "element"), elementPath, Join(updated, "/"));
          ok := true;
          if Child(sub, "element").Some? {
            var pluginName := Join(updated, "/");
            ok := ScanElementDirectory(Child(sub, "element"), elementPath, pluginName);
          }
          if !ok {
            RunStepsStop(m, here, OverrideSteps(sub, fullItemPath, updated, "element"), ElementScan);
            return;
          }
          ghost var mid := elementMap;
          ok := ScanNestedPlugins(sub, fullItemPath, updated);
          RunStepsThen(m, here, OverrideSteps(sub, fullItemPath, updated, "element"), mid, ElementScan);
      }
    }
  }

  /** Scanning one more entry of a listing. */
  lemma ElementWalkSnoc(m0: Index, cs: seq<Node>, i: nat, path: string, rel: string, pluginName: string)
    requires i < |cs|
    ensures AppendAll(m0, ElementPairs(pluginName, Walk(cs[..i + 1], path, rel)))
         == AppendAll(AppendAll(m0, ElementPairs(pluginName, Walk(cs[..i], path, rel))),
                      ElementPairs(pluginName, WalkNode(cs[i], path, rel)))
  {
    WalkSnoc(cs, i, path, rel);
    var w := Walk(cs[..i], path, rel);
    var wn := WalkNode(cs[i], path, rel);
    ElementPairsConcat(pluginName, w, wn);
    AppendAllConcat(m0, ElementPairs(pluginName, w), ElementPairs(pluginName, wn));
  }
}
