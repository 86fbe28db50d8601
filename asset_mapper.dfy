/** The script and stylesheet indexes: every `.js`/`.css` file below the
    application's `webroot` and below each autoloaded plugin's `webroot`,
    filed under all the names `Html->script`/`Html->css` may use for it. */
module AssetMapper {
  import opened Text
  import opened Dicts
  import opened NodePath
  import opened FileSystem
  import opened PluginUtils

  // ---------------------------------------------------------------------
  // generateAssetKeys

  /** `assetPath.replace(/^(css\/|js\/)/i, '')`. */
  function StripScopeDir(p: string): (r: string)
    ensures |r| <= |p| && r == p[|p| - |r|..]
  {
    if |p| >= 4 && Lower(p[..4]) == "css/" then p[4..]
    else if |p| >= 3 && Lower(p[..3]) == "js/" then p[3..]
    else p
  }

  /** A leading `js/` (in any letter case) is removed, and only that. */
  lemma StripScopeDirJs(dir: string, rest: string)
    requires |dir| == 3 && Lower(dir) == "js/"
    ensures StripScopeDir(dir + rest) == rest
  {
    var p := dir + rest;
    assert p[..3] == dir;
    if |p| >= 4 {
      assert Lower(p[..4])[2] == ToLowerChar(dir[2]) == '/';
    }
    assert p[3..] == rest;
  }

  /** A leading `css/` (in any letter case) is removed, and only that. */
  lemma StripScopeDirCss(dir: string, rest: string)
    requires |dir| == 4 && Lower(dir) == "css/"
    ensures StripScopeDir(dir + rest) == rest
  {
    var p := dir + rest;
    assert p[..4] == dir;
    assert p[4..] == rest;
  }

  /** A path that does not start with either directory keeps its name. */
  lemma StripScopeDirOther(p: string)
    requires !StartsWith(Lower(p), "js/") && !StartsWith(Lower(p), "css/")
    ensures StripScopeDir(p) == p
  {
    if |p| >= 4 {
      assert Lower(p[..4]) == Lower(p)[..4];
    }
    if |p| >= 3 {
      assert Lower(p[..3]) == Lower(p)[..3];
    }
  }

  /** The six (or four) names of an application asset, in push order: the
      path and the path without the directory `css/`/`js/`, each with and
      without its extension, then for a stylesheet or script the second
      pair behind `/css/` or `/js/`. */
  function BaseKeys(assetPath: string, ext: string, scope: string): (r: seq<string>)
    ensures |r| == if scope == "css" || scope == "js" then 6 else 4
    ensures r[0] == assetPath && r[2] == StripScopeDir(assetPath)
    ensures r[1] == DropLast(r[0], |ext|) && r[3] == DropLast(r[2], |ext|)
    ensures scope == "css" ==> r[4] == "/css/" + r[2] && r[5] == "/css/" + r[3]
    ensures scope == "js" ==> r[4] == "/js/" + r[2] && r[5] == "/js/" + r[3]
  {
    var noExt := DropLast(assetPath, |ext|);
    var trimmed := StripScopeDir(assetPath);
    var trimmedNoExt := DropLast(trimmed, |ext|);
    [assetPath, noExt, trimmed, trimmedNoExt]
    + (if scope == "css" then ["/css/" + trimmed, "/css/" + trimmedNoExt]
       else if scope == "js" then ["/js/" + trimmed, "/js/" + trimmedNoExt]
       else [])
  }

  /** `generateAssetKeys`: a plugin's asset carries the same names as an
      application asset, each behind `<plugin>.`; duplicates are dropped. */
  function GenerateAssetKeys(pluginName: string, assetPath: string, ext: string, scope: string): (r: seq<string>)
    ensures NoDuplicates(r)
    ensures |r| <= 6
    ensures pluginName == "" ==> forall k :: k in r <==> k in BaseKeys(assetPath, ext, scope)
    ensures pluginName == "" ==>
      var trimmed := StripScopeDir(assetPath);
      assetPath in r && DropLast(assetPath, |ext|) in r && trimmed in r && DropLast(trimmed, |ext|) in r &&
      (scope == "css" ==> "/css/" + trimmed in r && "/css/" + DropLast(trimmed, |ext|) in r) &&
      (scope == "js" ==> "/js/" + trimmed in r && "/js/" + DropLast(trimmed, |ext|) in r)
    ensures pluginName != "" ==> forall k :: k in r <==>
      StartsWith(k, pluginName + ".") && k[|pluginName| + 1..] in BaseKeys(assetPath, ext, scope)
  {
    var base := BaseKeys(assetPath, ext, scope);
    if pluginName != "" then
      var keys := PrefixAll(pluginName + ".", base);
      PrefixAllMember(pluginName + ".", base);
      Distinct(keys)
    else
      assert base[0] in base && base[1] in base && base[2] in base && base[3] in base;
      assert scope == "css" || scope == "js" ==> base[4] in base && base[5] in base;
      Distinct(base)
  }

  /** A plugin asset's names are the application names behind `<plugin>.`. */
  lemma AssetKeysPlugin(pluginName: string, assetPath: string, ext: string, scope: string)
    requires pluginName != ""
    ensures GenerateAssetKeys(pluginName, assetPath, ext, scope)
         == PrefixAll(pluginName + ".", GenerateAssetKeys("", assetPath, ext, scope))
  {
    DistinctMapInjective(BaseKeys(assetPath, ext, scope), pluginName + ".");
  }

  /** A script below `webroot/js` is found by its path with or without the
      `js/` directory, with or without `.js`, and with a leading `/js/`. */
  lemma AssetKeysScript(rest: string)
    requires |rest| > 3 && EndsWith(rest, ".js")
    ensures var keys := GenerateAssetKeys("", "js/" + rest, ".js", "js");
      var name := rest[..|rest| - 3];
      forall k :: k in keys <==>
        k == "js/" + rest || k == "js/" + name || k == rest || k == name || k == "/js/" + rest || k == "/js/" + name
  {
    var dir := "js/";
    StripScopeDirJs(dir, rest);
    assert ("js/" + rest)[..|"js/" + rest| - 3] == "js/" + rest[..|rest| - 3];
  }

  /** A stylesheet below `webroot/css` is found by its path with or without
      the `css/` directory, with or without `.css`, and with a leading `/css/`. */
  lemma AssetKeysStylesheet(rest: string)
    requires |rest| > 4 && EndsWith(rest, ".css")
    ensures var keys := GenerateAssetKeys("", "css/" + rest, ".css", "css");
      var name := rest[..|rest| - 4];
      forall k :: k in keys <==>
        k == "css/" + rest || k == "css/" + name || k == rest || k == name || k == "/css/" + rest || k == "/css/" + name
  {
    var dir := "css/";
    StripScopeDirCss(dir, rest);
    assert ("css/" + rest)[..|"css/" + rest| - 4] == "css/" + rest[..|rest| - 4];
  }

  /** `Blog` plugin script `js/app.js`. */
  lemma ExampleBlogScript()
    ensures GenerateAssetKeys("Blog", "js/app.js", ".js", "js")
         == ["Blog.js/app.js", "Blog.js/app", "Blog.app.js", "Blog.app", "Blog./js/app.js", "Blog./js/app"]
  {
    var keys := ["Blog.js/app.js", "Blog.js/app", "Blog.app.js", "Blog.app", "Blog./js/app.js", "Blog./js/app"];
    BlogScriptKeys();
    BlogScriptKeysDistinct();
    DistinctOfDistinct(keys);
    assert "Blog" + "." == "Blog.";
  }

  lemma BlogScriptKeys()
    ensures PrefixAll("Blog.", BaseKeys("js/app.js", ".js", "js"))
         == ["Blog.js/app.js", "Blog.js/app", "Blog.app.js", "Blog.app", "Blog./js/app.js", "Blog./js/app"]
  {
    ExampleAppScript();
    PrefixBlogScript(BaseKeys("js/app.js", ".js", "js"));
  }

  lemma PrefixBlogScript(base: seq<string>)
    requires base == ["js/app.js", "js/app", "app.js", "app", "/js/app.js", "/js/app"]
    ensures PrefixAll("Blog.", base)
         == ["Blog.js/app.js", "Blog.js/app", "Blog.app.js", "Blog.app", "Blog./js/app.js", "Blog./js/app"]
  {
    var keys := PrefixAll("Blog.", base);
    assert keys[0] == "Blog." + "js/app.js" == "Blog.js/app.js";
    assert keys[1] == "Blog." + "js/app" == "Blog.js/app";
    assert keys[2] == "Blog." + "app.js" == "Blog.app.js";
    assert keys[3] == "Blog." + "app" == "Blog.app";
    assert keys[4] == "Blog." + "/js/app.js" == "Blog./js/app.js";
    assert keys[5] == "Blog." + "/js/app" == "Blog./js/app";
  }

  lemma BlogScriptKeysDistinct()
    ensures NoDuplicates(["Blog.js/app.js", "Blog.js/app", "Blog.app.js", "Blog.app", "Blog./js/app.js", "Blog./js/app"])
  {
    var keys := ["Blog.js/app.js", "Blog.js/app", "Blog.app.js", "Blog.app", "Blog./js/app.js", "Blog./js/app"];
    forall i, j | 0 <= i < j < |keys| ensures keys[i] != keys[j] {
      if |keys[i]| == |keys[j]| {
        assert keys[i][5] != keys[j][5];
      }
    }
  }

  /** The application script `js/app.js`. */
  lemma ExampleAppScript()
    ensures BaseKeys("js/app.js", ".js", "js") == ["js/app.js", "js/app", "app.js", "app", "/js/app.js", "/js/app"]
  {
    StripScopeDirJs("js/", "app.js");
    assert "js/app.js" == "js/" + "app.js";
    assert DropLast("js/app.js", 3) == "js/app";
    assert DropLast("app.js", 3) == "app";
    assert |".js"| == 3 && "js" != "css";
    assert "/js/" + "app.js" == "/js/app.js" && "/js/" + "app" == "/js/app";
  }

  /** A sequence without duplicates is its own `Distinct`. */
  lemma {:induction false} DistinctOfDistinct(s: seq<string>)
    requires NoDuplicates(s)
    ensures Distinct(s) == s
    decreases |s|
  {
    if s != [] {
      var init := s[..|s| - 1];
      DistinctOfDistinct(init);
      assert s[|s| - 1] !in init;
      assert init + [s[|s| - 1]] == s;
    }
  }

  // ---------------------------------------------------------------------
  // what a scan adds

  /** The two maps, scripts and stylesheets. */
  datatype AssetMaps = AssetMaps(js: Index, css: Index)

  /** Every key paired with the same file. */
  function KeyPairs(keys: seq<string>, p: string): (r: seq<(string, string)>)
    ensures |r| == |keys|
    ensures forall i :: 0 <= i < |keys| ==> r[i] == (keys[i], p)
  {
    seq(|keys|, i requires 0 <= i < |keys| => (keys[i], p))
  }

  /** What one file adds to the map for `ext` (its lower-cased extension must be `ext`). */
  function EntryPairs(plugin: string, e: Entry, ext: string, scope: string): seq<(string, string)> {
    if Lower(ExtName(e.name)) == ext then KeyPairs(GenerateAssetKeys(plugin, e.rel, ext, scope), e.full) else []
  }

  function AssetPairs(plugin: string, es: seq<Entry>, ext: string, scope: string): seq<(string, string)>
    decreases |es|
  {
    if es == [] then [] else EntryPairs(plugin, es[0], ext, scope) + AssetPairs(plugin, es[1..], ext, scope)
  }

  lemma {:induction false} AssetPairsConcat(plugin: string, a: seq<Entry>, b: seq<Entry>, ext: string, scope: string)
    ensures AssetPairs(plugin, a + b, ext, scope) == AssetPairs(plugin, a, ext, scope) + AssetPairs(plugin, b, ext, scope)
    decreases |a|
  {
    if a == [] {
      assert a + b == b;
    } else {
      ConsConcat(a, b);
      AssetPairsConcat(plugin, a[1..], b, ext, scope);
      AssetPairsCons(plugin, a, ext, scope);
      AssetPairsCons(plugin, a + b, ext, scope);
      SeqAssoc(EntryPairs(plugin, a[0], ext, scope), AssetPairs(plugin, a[1..], ext, scope), AssetPairs(plugin, b, ext, scope));
    }
  }

  lemma AssetPairsCons(plugin: string, es: seq<Entry>, ext: string, scope: string)
    requires es != []
    ensures AssetPairs(plugin, es, ext, scope) == EntryPairs(plugin, es[0], ext, scope) + AssetPairs(plugin, es[1..], ext, scope)
  {
  }

  /** A key/file pair is added exactly for the files with the extension, under each of their names. */
  lemma {:induction false} AssetPairsMember(plugin: string, es: seq<Entry>, ext: string, scope: string, k: string, p: string)
    ensures (k, p) in AssetPairs(plugin, es, ext, scope) <==>
      exists e :: e in es && Lower(ExtName(e.name)) == ext && e.full == p && k in GenerateAssetKeys(plugin, e.rel, ext, scope)
    decreases |es|
  {
    if es != [] {
      AssetPairsMember(plugin, es[1..], ext, scope, k, p);
      assert forall e :: e in es <==> e == es[0] || e in es[1..];
      var e := es[0];
      if Lower(ExtName(e.name)) == ext && e.full == p && k in GenerateAssetKeys(plugin, e.rel, ext, scope) {
        var keys := GenerateAssetKeys(plugin, e.rel, ext, scope);
        var i :| 0 <= i < |keys| && keys[i] == k;
        assert KeyPairs(keys, p)[i] == (k, p);
      }
    }
  }

  /** One `scanAssetDirectory` over a listing's files; it always completes. */
  function AssetScan(m: AssetMaps, plugin: string, es: seq<Entry>): (AssetMaps, bool) {
    (AssetMaps(AppendNewAll(m.js, AssetPairs(plugin, es, ".js", "js")),
               AppendNewAll(m.css, AssetPairs(plugin, es, ".css", "css"))), true)
  }

  /** Both maps well formed, no list holding a file twice. */
  ghost predicate AssetInvariant(m: AssetMaps) {
    WellFormed(m.js) && WellFormed(m.css)
    && (forall k :: NoDuplicates(Lookup(m.js, k)))
    && (forall k :: NoDuplicates(Lookup(m.css, k)))
  }

  /** After a scan, a script name lists a file iff it listed it before or the
      file is a `.js` file of the scan carrying that name; likewise for
      stylesheets; the lists stay free of duplicates. */
  lemma AssetScanLookup(m: AssetMaps, plugin: string, es: seq<Entry>, k: string, p: string)
    requires AssetInvariant(m)
    ensures AssetInvariant(AssetScan(m, plugin, es).0)
    ensures p in Lookup(AssetScan(m, plugin, es).0.js, k) <==> (p in Lookup(m.js, k) ||
      exists e :: e in es && Lower(ExtName(e.name)) == ".js" && e.full == p && k in GenerateAssetKeys(plugin, e.rel, ".js", "js"))
    ensures p in Lookup(AssetScan(m, plugin, es).0.css, k) <==> (p in Lookup(m.css, k) ||
      exists e :: e in es && Lower(ExtName(e.name)) == ".css" && e.full == p && k in GenerateAssetKeys(plugin, e.rel, ".css", "css"))
  {
    var js := AssetPairs(plugin, es, ".js", "js");
    var css := AssetPairs(plugin, es, ".css", "css");
    AppendNewAllWellFormed(m.js, js);
    AppendNewAllWellFormed(m.css, css);
    forall j ensures NoDuplicates(Lookup(AppendNewAll(m.js, js), j)) && NoDuplicates(Lookup(AppendNewAll(m.css, css), j)) {
      AppendNewAllLookup(m.js, js, j);
      AppendNewAllLookup(m.css, css, j);
    }
    AppendNewAllLookup(m.js, js, k);
    AppendNewAllLookup(m.css, css, k);
    AssetPairsMember(plugin, es, ".js", "js", k, p);
    AssetPairsMember(plugin, es, ".css", "css", k, p);
  }

  /** Any run of scans from empty maps leaves both maps well formed and free of duplicates. */
  lemma {:induction false} AssetRunInvariant(m: AssetMaps, steps: seq<Step>)
    requires AssetInvariant(m)
    ensures AssetInvariant(RunSteps(m, steps, AssetScan).0)
    decreases |steps|
  {
    if steps != [] {
      match steps[0]
      case NotADirectory(_) =>
      case Scan(plugin, cs, path) =>
        var es := Walk(cs, path, "");
        AssetScanLookup(m, plugin, es, "", "");
        AssetRunInvariant(AssetScan(m, plugin, es).0, steps[1..]);
    }
  }

  /** Whatever its outcome, generating the maps leaves them well formed and free of duplicates. */
  lemma AssetPlanInvariant(fs: Node, root: string, pluginMap: Dict<string>)
    requires Valid(pluginMap)
    ensures AssetInvariant(RunSteps(AssetMaps(Empty(), Empty()), AssetPlan(fs, root, pluginMap), AssetScan).0)
  {
    EmptyAssetInvariant();
    AssetRunInvariant(AssetMaps(Empty(), Empty()), AssetPlan(fs, root, pluginMap));
  }

  lemma EmptyAssetInvariant()
    ensures AssetInvariant(AssetMaps(Empty(), Empty()))
  {
    var e: Index := Empty();
    assert forall k :: Lookup(e, k) == [];
  }

  // ---------------------------------------------------------------------
  // the scans generateAssetMaps runs

  /** `if (fs.existsSync(path)) scanAssetDirectory(path, plugin)` for `<dir>/webroot`. */
  function WebrootStep(fs: Node, dir: string, plugin: string): seq<Step> {
    var w := JoinPath(dir, "webroot");
    StepAt(Locate(fs, w), w, plugin)
  }

  /** The application's `webroot` first, then every plugin's. */
  function AssetPlan(fs: Node, root: string, pluginMap: Dict<string>): seq<Step>
    requires Valid(pluginMap)
  {
    WebrootStep(fs, root, "") + Flatten(PluginSteps(fs, Items(pluginMap)))
  }

  /** The steps of each autoload entry, in key order. */
  function PluginSteps(fs: Node, items: seq<(string, string)>): (r: seq<seq<Step>>)
    ensures |r| == |items|
    ensures forall i :: 0 <= i < |items| ==> r[i] == WebrootStep(fs, items[i].1, PluginName(items[i].0))
  {
    seq(|items|, i requires 0 <= i < |items| => WebrootStep(fs, items[i].1, PluginName(items[i].0)))
  }

  // ---------------------------------------------------------------------
  // the module state

  class AssetIndex {
    /** `jsMap` and `cssMap`. */
    var jsMap: Index
    var cssMap: Index

    constructor()
      ensures jsMap == Empty() && cssMap == Empty()
    {
      jsMap := Empty();
      cssMap := Empty();
    }

    /** `getJsPaths(name)`. */
    function GetJsPaths(name: string): (r: seq<string>)
      reads this
      ensures name !in jsMap.entries ==> r == []
      ensures name in jsMap.entries ==> r == jsMap.entries[name]
    {
      Lookup(jsMap, name)
    }

    /** `getCssPaths(name)`. */
    function GetCssPaths(name: string): (r: seq<string>)
      reads this
      ensures name !in cssMap.entries ==> r == []
      ensures name in cssMap.entries ==> r == cssMap.entries[name]
    {
      Lookup(cssMap, name)
    }

    /** `getAllJsNames()`. */
    function GetAllJsNames(): (r: seq<string>)
      reads this
      ensures Valid(jsMap) ==> forall k :: k in r <==> k in jsMap.entries
    {
      Names(jsMap)
    }

    /** `getAllCssNames()`. */
    function GetAllCssNames(): (r: seq<string>)
      reads this
      ensures Valid(cssMap) ==> forall k :: k in r <==> k in cssMap.entries
    {
      Names(cssMap)
    }

    /** `generateAssetMaps`: both maps rebuilt from scratch; `ok` is false when
        a scan threw (a `webroot` that is a regular file), and the maps then
        hold what was added before. */
    method GenerateAssetMaps(fs: Node, root: string, pluginMap: Dict<string>) returns (ok: bool)
      requires Valid(pluginMap)
      modifies this
      ensures (AssetMaps(jsMap, cssMap), ok) == RunSteps(AssetMaps(Empty(), Empty()), AssetPlan(fs, root, pluginMap), AssetScan)
    {
      jsMap := Empty();
      cssMap := Empty();
      ghost var init := AssetMaps(jsMap, cssMap);
      var items := Items(pluginMap);
      ghost var app := WebrootStep(fs, root, "");
      ghost var rest := Flatten(PluginSteps(fs, items));
      ok := ScanWebroot(fs, root, "");
      if !ok {
        RunStepsStop(init, app, rest, AssetScan);
        return;
      }
      ghost var mid := AssetMaps(jsMap, cssMap);
      ok := ScanPlugins(fs, items);
      RunStepsThen(init, app, rest, mid, AssetScan);
    }

    /** The loop over the plugin map's entries, in its order. */
    method ScanPlugins(fs: Node, items: seq<(string, string)>) returns (ok: bool)
      modifies this
      ensures (AssetMaps(jsMap, cssMap), ok) == RunSteps(old(AssetMaps(jsMap, cssMap)), Flatten(PluginSteps(fs, items)), AssetScan)
    {
      ghost var m := AssetMaps(jsMap, cssMap);
      ghost var ss := PluginSteps(fs, items);
      ok := true;
      var i := 0;
      RunNone(m, ss, AssetScan);
      while i < |items|
        invariant 0 <= i <= |items|
        invariant (AssetMaps(jsMap, cssMap), true) == RunSteps(m, Flatten(ss[..i]), AssetScan)
      {
        ghost var before := AssetMaps(jsMap, cssMap);
        var pluginName := PluginName(items[i].0);
        ok := ScanWebroot(fs, items[i].1, pluginName);
        RunNext(m, ss, i, before, AssetMaps(jsMap, cssMap), ok, AssetScan);
        if !ok {
          return;
        }
        i := i + 1;
      }
      FlattenAll(ss);
    }

    /** `if (fs.existsSync(<dir>/webroot)) scanAssetDirectory(<dir>/webroot, pluginName)`. */
    method ScanWebroot(fs: Node, dir: string, pluginName: string) returns (ok: bool)
      modifies this
      ensures (AssetMaps(jsMap, cssMap), ok) == RunSteps(old(AssetMaps(jsMap, cssMap)), WebrootStep(fs, dir, pluginName), AssetScan)
    {
      var w := JoinPath(dir, "webroot");
      if Exists(fs, w) {
        ok := ScanAssetDirectory(fs, w, pluginName);
      } else {
        ok := true;
      }
    }

    /** `scanAssetDirectory(dirPath, pluginName)`: nothing if the path is
        missing, a failure if it is a regular file, otherwise every file below it. */
    method ScanAssetDirectory(fs: Node, dirPath: string, pluginName: string) returns (ok: bool)
      modifies this
      ensures (AssetMaps(jsMap, cssMap), ok)
           == RunSteps(old(AssetMaps(jsMap, cssMap)), StepAt(Locate(fs, dirPath), dirPath, pluginName), AssetScan)
    {
      ghost var m := AssetMaps(jsMap, cssMap);
      match Locate(fs, dirPath)
      case None =>
        ok := true;
      case Some(File(_)) =>
        ok := false;
      case Some(Dir(_, cs)) =>
        ScanDir(cs, dirPath, "", pluginName);
        ok := true;
        RunOne(m, Scan(pluginName, cs, dirPath), AssetScan);
    }

    /** The nested `scanDir(currentPath, relativePath)`. */
    method ScanDir(cs: seq<Node>, path: string, rel: string, pluginName: string)
      modifies this
      ensures jsMap == AppendNewAll(old(jsMap), AssetPairs(pluginName, Walk(cs, path, rel), ".js", "js"))
      ensures cssMap == AppendNewAll(old(cssMap), AssetPairs(pluginName, Walk(cs, path, rel), ".css", "css"))
      decreases cs, 1
    {
      var i := 0;
      while i < |cs|
        invariant 0 <= i <= |cs|
        invariant jsMap == AppendNewAll(old(jsMap), AssetPairs(pluginName, Walk(cs[..i], path, rel), ".js", "js"))
        invariant cssMap == AppendNewAll(old(cssMap), AssetPairs(pluginName, Walk(cs[..i], path, rel), ".css", "css"))
        decreases |cs| - i
      {
        ScanEntry(cs[i], path, rel, pluginName);
        AssetWalkSnoc(old(jsMap), cs, i, path, rel, pluginName, ".js", "js");
        AssetWalkSnoc(old(cssMap), cs, i, path, rel, pluginName, ".css", "css");
        i := i + 1;
      }
      assert cs[..|cs|] == cs;
    }

    /** One entry of a listing: a directory is scanned recursively, a file
        with a `.js` or `.css` extension is filed under its keys. */
    method ScanEntry(c: Node, path: string, rel: string, pluginName: string)
      modifies this
      ensures jsMap == AppendNewAll(old(jsMap), AssetPairs(pluginName, WalkNode(c, path, rel), ".js", "js"))
      ensures cssMap == AppendNewAll(old(cssMap), AssetPairs(pluginName, WalkNode(c, path, rel), ".css", "css"))
      decreases c, 0
    {
      var full := JoinPath(path, c.name);
      var r := RelJoin(rel, c.name);
      match c {
        case Dir(_, sub) =>
          ScanDir(sub, full, r, pluginName);
        case File(n) =>
          var ext := Lower(ExtName(n));
          if ext == ".js" || ext == ".css" {
            var scope := if ext == ".js" then "js" else "css";
            var keys := GenerateAssetKeys(pluginName, r, ext, scope);
            AddKeys(keys, full, ext == ".js");
          }
          AssetPairsOne(pluginName, Entry(n, full, r), ".js", "js");
          AssetPairsOne(pluginName, Entry(n, full, r), ".css", "css");
      }
    }

    /** The loop over one file's keys, pushing the file to each key that lacks it. */
    method AddKeys(keys: seq<string>, full: string, js: bool)
      modifies this
      ensures js ==> jsMap == AppendNewAll(old(jsMap), KeyPairs(keys, full)) && cssMap == old(cssMap)
      ensures !js ==> cssMap == AppendNewAll(old(cssMap), KeyPairs(keys, full)) && jsMap == old(jsMap)
    {
      var j := 0;
      while j < |keys|
        invariant 0 <= j <= |keys|
        invariant js ==> jsMap == AppendNewAll(old(jsMap), KeyPairs(keys[..j], full)) && cssMap == old(cssMap)
        invariant !js ==> cssMap == AppendNewAll(old(cssMap), KeyPairs(keys[..j], full)) && jsMap == old(jsMap)
      {
        KeyPairsStep(old(jsMap), keys, j, full);
        KeyPairsStep(old(cssMap), keys, j, full);
        if js {
          jsMap := AppendNew(jsMap, keys[j], full);
        } else {
          cssMap := AppendNew(cssMap, keys[j], full);
        }
        j := j + 1;
      }
      assert keys[..|keys|] == keys;
    }
  }

  /** Pushing the file to one more key. */
  lemma KeyPairsStep(m0: Index, keys: seq<string>, j: nat, full: string)
    requires j < |keys|
    ensures AppendNewAll(m0, KeyPairs(keys[..j + 1], full))
         == AppendNew(AppendNewAll(m0, KeyPairs(keys[..j], full)), keys[j], full)
  {
    var pre := KeyPairs(keys[..j], full);
    assert KeyPairs(keys[..j + 1], full) == pre + [(keys[j], full)];
    AppendNewAllConcat(m0, pre, [(keys[j], full)]);
    assert [(keys[j], full)][1..] == [];
  }

  /** Scanning one more entry of a listing. */
  lemma AssetWalkSnoc(m0: Index, cs: seq<Node>, i: nat, path: string, rel: string, plugin: string, ext: string, scope: string)
    requires i < |cs|
    ensures AppendNewAll(m0, AssetPairs(plugin, Walk(cs[..i + 1], path, rel), ext, scope))
         == AppendNewAll(AppendNewAll(m0, AssetPairs(plugin, Walk(cs[..i], path, rel), ext, scope)),
                         AssetPairs(plugin, WalkNode(cs[i], path, rel), ext, scope))
  {
    WalkSnoc(cs, i, path, rel);
    var w := Walk(cs[..i], path, rel);
    var wn := WalkNode(cs[i], path, rel);
    AssetPairsConcat(plugin, w, wn, ext, scope);
    AppendNewAllConcat(m0, AssetPairs(plugin, w, ext, scope), AssetPairs(plugin, wn, ext, scope));
  }

  /** A single file's pairs. */
  lemma AssetPairsOne(plugin: string, e: Entry, ext: string, scope: string)
    ensures AssetPairs(plugin, [e], ext, scope) == EntryPairs(plugin, e, ext, scope)
  {
    assert [e][1..] == [];
  }
}
