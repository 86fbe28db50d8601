/** The cell-view index: every `.php` file below `templates/cell` of the
    application and of each autoloaded plugin, and below every
    `templates/plugin/<Plugin...>/cell` override directory, filed under
    `Cell::view` (and `Cell::viewName` when the view name has an underscore).
    A file directly in a cell root has no cell directory: its key gets the
    view `undefined`, and reading that missing view then throws, ending the
    whole map generation. */
module CellMapper {
  import opened Text
  import opened Dicts
  import opened NodePath
  import opened FileSystem
  import opened PluginUtils
  import opened StringUtils

  predicate IsPhp(name: string) {
    Lower(ExtName(name)) == ".php"
  }

  /** `pluginName ? `${pluginName}.${cellName}::${viewName}` : `${cellName}::${viewName}``. */
  function CellKey(pluginName: string, cellName: string, viewName: string): (r: string)
    ensures pluginName == "" ==> r == cellName + "::" + viewName
    ensures pluginName != "" ==> r == pluginName + "." + cellName + "::" + viewName
  {
    (if pluginName != "" then pluginName + "." else "") + cellName + "::" + viewName
  }

  /** The `/`-separated pieces of a file's relative path without `.php`. */
  function CellPieces(e: Entry): (r: seq<string>)
    ensures |r| >= 1
  {
    Split(DropLast(e.rel, 4), "/")
  }

  /** A `.php` file with no cell directory above it: `viewName` is `undefined`
      and `viewName.includes('_')` throws. */
  predicate Crashes(e: Entry) {
    IsPhp(e.name) && |CellPieces(e)| == 1
  }

  /** What one file pushes, in order. */
  function EntryPairs(pluginName: string, e: Entry): (r: seq<(string, string)>)
    ensures |r| <= 2
    ensures !IsPhp(e.name) ==> r == []
    ensures Crashes(e) ==> r == [(CellKey(pluginName, CellPieces(e)[0], "undefined"), e.full)]
  {
    if !IsPhp(e.name) then []
    else
      var parts := CellPieces(e);
      if |parts| == 1 then [(CellKey(pluginName, parts[0], "undefined"), e.full)]
      else
        ViewPairs(pluginName, parts[|parts| - 2], parts[|parts| - 1], e.full)
  }

  /** A view is filed under `Cell::view`, then under the camelised view name
      when that name has an underscore. */
  function ViewPairs(pluginName: string, cellName: string, viewName: string, full: string): seq<(string, string)> {
    if '_' in viewName then
      [(CellKey(pluginName, cellName, viewName), full), (CellKey(pluginName, cellName, VariableCamelize(viewName)), full)]
    else [(CellKey(pluginName, cellName, viewName), full)]
  }

  /** The pairs a scan pushes: up to and including the first file that throws. */
  function CellPairs(pluginName: string, es: seq<Entry>): seq<(string, string)>
    decreases |es|
  {
    if es == [] then []
    else EntryPairs(pluginName, es[0]) + (if Crashes(es[0]) then [] else CellPairs(pluginName, es[1..]))
  }

  /** The scan completes when no file throws. */
  predicate CellOk(es: seq<Entry>) {
    forall i :: 0 <= i < |es| ==> !Crashes(es[i])
  }

  lemma {:induction false} CellPairsConcat(pluginName: string, a: seq<Entry>, b: seq<Entry>)
    ensures CellPairs(pluginName, a + b) == CellPairs(pluginName, a) + (if CellOk(a) then CellPairs(pluginName, b) else [])
    decreases |a|
  {
    if a == [] {
      assert a + b == b;
      assert CellPairs(pluginName, a) == [];
      assert CellOk(a);
    } else {
      ConsConcat(a, b);
      CellOkCons(a);
      CellPairsConcat(pluginName, a[1..], b);
      CellPairsCons(pluginName, a);
      CellPairsCons(pluginName, a + b);
      if !Crashes(a[0]) {
        var t := if CellOk(a) then CellPairs(pluginName, b) else [];
        SeqAssoc(EntryPairs(pluginName, a[0]), CellPairs(pluginName, a[1..]), t);
      }
    }
  }

  lemma CellPairsCons(pluginName: string, es: seq<Entry>)
    requires es != []
    ensures CellPairs(pluginName, es) ==
      EntryPairs(pluginName, es[0]) + (if Crashes(es[0]) then [] else CellPairs(pluginName, es[1..]))
  {
  }

  lemma CellOkCons(a: seq<Entry>)
    requires a != []
    ensures CellOk(a) <==> !Crashes(a[0]) && CellOk(a[1..])
  {
    assert forall i :: 0 < i < |a| ==> a[i] == a[1..][i - 1];
  }

  lemma CellOkConcat(a: seq<Entry>, b: seq<Entry>)
    ensures CellOk(a + b) <==> CellOk(a) && CellOk(b)
  {
    assert forall i :: 0 <= i < |a| ==> (a + b)[i] == a[i];
    assert forall i :: 0 <= i < |b| ==> (a + b)[|a| + i] == b[i];
  }

  /** One `scanCellDirectory` over a listing's files. */
  function CellScan(ix: Index, pluginName: string, es: seq<Entry>): (Index, bool) {
    (AppendAll(ix, CellPairs(pluginName, es)), CellOk(es))
  }

  /** After a scan each key lists the files it listed before, followed by the
      files the scan pushed under that key, in listing order. */
  lemma CellScanLookup(ix: Index, pluginName: string, es: seq<Entry>, k: string)
    ensures Lookup(CellScan(ix, pluginName, es).0, k) == Lookup(ix, k) + PathsFor(CellPairs(pluginName, es), k)
  {
    AppendAllLookup(ix, CellPairs(pluginName, es), k);
  }

  /** A view `<cell dirs>/<Cell>/<view>.php` is filed under `Cell::view`, and
      also under the camelised view name when that name has an underscore. */
  lemma CellEntryKeys(pluginName: string, e: Entry, dirs: seq<string>, cellName: string, viewName: string)
    requires IsPhp(e.name)
    requires DropLast(e.rel, 4) == Join(dirs + [cellName, viewName], "/")
    requires forall i :: 0 <= i < |dirs| ==> '/' !in dirs[i]
    requires '/' !in cellName && '/' !in viewName
    ensures !Crashes(e)
    ensures EntryPairs(pluginName, e) == [(CellKey(pluginName, cellName, viewName), e.full)]
      + (if '_' in viewName then [(CellKey(pluginName, cellName, VariableCamelize(viewName)), e.full)] else [])
  {
    var parts := dirs + [cellName, viewName];
    CellPiecesOf(e, dirs, cellName, viewName);
    assert parts[|parts| - 2] == cellName && parts[|parts| - 1] == viewName;
  }

  lemma CellPiecesOf(e: Entry, dirs: seq<string>, cellName: string, viewName: string)
    requires DropLast(e.rel, 4) == Join(dirs + [cellName, viewName], "/")
    requires forall i :: 0 <= i < |dirs| ==> '/' !in dirs[i]
    requires '/' !in cellName && '/' !in viewName
    ensures CellPieces(e) == dirs + [cellName, viewName]
  {
    var parts := dirs + [cellName, viewName];
    forall k | 0 <= k < |parts| ensures '/' !in parts[k] {
      if k < |dirs| {
        assert parts[k] == dirs[k];
      }
    }
    SplitJoin(parts, '/');
  }

  /** A view file directly in the cell root is pushed under `<name>::undefined`
      and then ends the scan. */
  lemma CellRootFileCrashes(pluginName: string, n: string, full: string)
    requires |n| > 4 && IsPhp(n) && '/' !in n && '\\' !in n
    ensures var e := Entry(n, full, RelJoin("", n));
      Crashes(e) && CellPairs(pluginName, [e]) == [(CellKey(pluginName, n[..|n| - 4], "undefined"), full)]
      && !CellOk([e])
  {
    var e := Entry(n, full, RelJoin("", n));
    assert RelJoin("", n) == n;
    RootPieces(e);
    assert Crashes(e);
    CellPairsCons(pluginName, [e]);
    assert [e][0] == e;
  }

  lemma RootPieces(e: Entry)
    requires |e.rel| > 4 && '/' !in e.rel
    ensures CellPieces(e) == [e.rel[..|e.rel| - 4]]
  {
    var v := e.rel[..|e.rel| - 4];
    assert '/' !in v by {
      assert forall i :: 0 <= i < |v| ==> v[i] == e.rel[i];
    }
    NoCharNoOccurrence(v, '/');
    SplitWithout(v, "/");
  }

  /** Any run of scans keeps the map well formed. */
  lemma {:induction false} CellRunWellFormed(ix: Index, steps: seq<Step>)
    requires WellFormed(ix)
    ensures WellFormed(RunSteps(ix, steps, CellScan).0)
    decreases |steps|
  {
    if steps != [] {
      match steps[0]
      case NotADirectory(_) =>
      case Scan(plugin, cs, path) =>
        var es := Walk(cs, path, "");
        AppendAllWellFormed(ix, CellPairs(plugin, es));
        if CellOk(es) {
          CellRunWellFormed(CellScan(ix, plugin, es).0, steps[1..]);
        }
    }
  }

  // ---------------------------------------------------------------------
  // the scans generateCellMap runs

  /** `if (fs.existsSync(<dir>/templates/cell)) scanCellDirectory(..., pluginName)`. */
  function CellDirStep(fs: Node, dir: string, pluginName: string): seq<Step> {
    var p := Join3(dir, "templates", "cell");
    StepAt(Locate(fs, p), p, pluginName)
  }

  /** The cell directory of `dir`, then the overrides below its `templates/plugin`. */
  function DirSteps(fs: Node, dir: string, pluginName: string): seq<Step> {
    CellDirStep(fs, dir, pluginName) + OverrideRoot(fs, Join3(dir, "templates", "plugin"), "cell")
  }

  function PluginSteps(fs: Node, items: seq<(string, string)>): (r: seq<seq<Step>>)
    ensures |r| == |items|
    ensures forall i :: 0 <= i < |items| ==> r[i] == DirSteps(fs, items[i].1, PluginName(items[i].0))
  {
    seq(|items|, i requires 0 <= i < |items| => DirSteps(fs, items[i].1, PluginName(items[i].0)))
  }

  /** The application first, then every plugin. */
  function CellPlan(fs: Node, root: string, pluginMap: Dict<string>): seq<Step>
    requires Valid(pluginMap)
  {
    DirSteps(fs, root, "") + Flatten(PluginSteps(fs, Items(pluginMap)))
  }

  /** Whatever its outcome, generating the map leaves it well formed. */
  lemma CellPlanWellFormed(fs: Node, root: string, pluginMap: Dict<string>)
    requires Valid(pluginMap)
    ensures WellFormed(RunSteps(Empty(), CellPlan(fs, root, pluginMap), CellScan).0)
  {
    var e: Index := Empty();
    assert WellFormed(e);
    CellRunWellFormed(e, CellPlan(fs, root, pluginMap));
  }

  // ---------------------------------------------------------------------
  // the module state

  class CellIndex {
    /** `cellMap`. */
    var cellMap: Index

    constructor()
      ensures cellMap == Empty()
    {
      cellMap := Empty();
    }

    /** `getCellPaths(name)`. */
    function GetCellPaths(name: string): (r: seq<string>)
      reads this
      ensures name !in cellMap.entries ==> r == []
      ensures name in cellMap.entries ==> r == cellMap.entries[name]
    {
      Lookup(cellMap, name)
    }

    /** `getAllCellNames()`. */
    function GetAllCellNames(): (r: seq<string>)
      reads this
      ensures Valid(cellMap) ==> forall k :: k in r <==> k in cellMap.entries
    {
      Names(cellMap)
    }

    /** `generateCellMap`: the map rebuilt from scratch; `ok` is false when a
        scan threw, and the map then holds what was added before. */
    method GenerateCellMap(fs: Node, root: string, pluginMap: Dict<string>) returns (ok: bool)
      requires Valid(pluginMap)
      modifies this
      ensures (cellMap, ok) == RunSteps(Empty(), CellPlan(fs, root, pluginMap), CellScan)
    {
      cellMap := Empty();
      ghost var init := cellMap;
      var items := Items(pluginMap);
      ghost var app := DirSteps(fs, root, "");
      ghost var rest := Flatten(PluginSteps(fs, items));
      ok := ScanDirSteps(fs, root, "");
      if !ok {
        RunStepsStop(init, app, rest, CellScan);
        return;
      }
      ghost var mid := cellMap;
      ok := ScanPlugins(fs, items);
      RunStepsThen(init, app, rest, mid, CellScan);
    }

    /** The loop over the plugin map's entries, in its order. */
    method ScanPlugins(fs: Node, items: seq<(string, string)>) returns (ok: bool)
      modifies this
      ensures (cellMap, ok) == RunSteps(old(cellMap), Flatten(PluginSteps(fs, items)), CellScan)
    {
      ghost var m := cellMap;
      ghost var ss := PluginSteps(fs, items);
      ok := true;
      var i := 0;
      RunNone(m, ss, CellScan);
      while i < |items|
        invariant 0 <= i <= |items|
        invariant (cellMap, true) == RunSteps(m, Flatten(ss[..i]), CellScan)
      {
        ghost var before := cellMap;
        var pluginName := PluginName(items[i].0);
        ok := ScanDirSteps(fs, items[i].1, pluginName);
        RunNext(m, ss, i, before, cellMap, ok, CellScan);
        if !ok {
          return;
        }
        i := i + 1;
      }
      FlattenAll(ss);
    }

    /** The body shared by the application and each plugin: its cell
        directory, then its plugin overrides. */
    method ScanDirSteps(fs: Node, dir: string, pluginName: string) returns (ok: bool)
      modifies this
      ensures (cellMap, ok) == RunSteps(old(cellMap), DirSteps(fs, dir, pluginName), CellScan)
    {
      ghost var m := cellMap;
      var cellPath := Join3(dir, "templates", "cell");
      ok := true;
      if Exists(fs, cellPath) {
        ok := ScanCellDirectory(Locate(fs, cellPath), cellPath, pluginName);
      }
      if !ok {
        RunStepsStop(m, CellDirStep(fs, dir, pluginName), OverrideRoot(fs, Join3(dir, "templates", "plugin"), "cell"), CellScan);
        return;
      }
      ghost var mid := cellMap;
      var overridePath := Join3(dir, "templates", "plugin");
      if Exists(fs, overridePath) {
        ok := ScanPluginOverrides(fs, overridePath);
      }
      RunStepsThen(m, CellDirStep(fs, dir, pluginName), OverrideRoot(fs, overridePath, "cell"), mid, CellScan);
    }

    /** `scanCellDirectory(dirPath, pluginName)` where `found` is what is at `dirPath`. */
    method ScanCellDirectory(found: Option<Node>, dirPath: string, pluginName: string) returns (ok: bool)
      modifies this
      ensures (cellMap, ok) == RunSteps(old(cellMap), StepAt(found, dirPath, pluginName), CellScan)
    {
      ghost var m := cellMap;
      match found
      case None =>
        ok := true;
      case Some(File(_)) =>
        ok := false;
      case Some(Dir(_, cs)) =>
        ok := ScanDir(cs, dirPath, "", pluginName);
        RunOne(m, Scan(pluginName, cs, dirPath), CellScan);
        if ok {
          assert [Scan(pluginName, cs, dirPath)][1..] == [];
        }
    }

    /** The nested `scanDir(currentPath, relativePath)`; `ok` is false when a
        file threw, and nothing after it was scanned. */
    method ScanDir(cs: seq<Node>, path: string, rel: string, pluginName: string) returns (ok: bool)
      modifies this
      ensures cellMap == AppendAll(old(cellMap), CellPairs(pluginName, Walk(cs, path, rel)))
      ensures ok == CellOk(Walk(cs, path, rel))
      decreases cs, 1
    {
      var i := 0;
      while i < |cs|
        invariant 0 <= i <= |cs|
        invariant cellMap == AppendAll(old(cellMap), CellPairs(pluginName, Walk(cs[..i], path, rel)))
        invariant CellOk(Walk(cs[..i], path, rel))
        decreases |cs| - i
      {
        ok := ScanEntry(cs[i], path, rel, pluginName);
        CellWalkSnoc(old(cellMap), cs, i, path, rel, pluginName);
        if !ok {
          CellWalkStop(cs, i, path, rel, pluginName);
          return;
        }
        i := i + 1;
      }
      assert cs[..|cs|] == cs;
      ok := true;
    }

    /** One entry of a listing. */
    method ScanEntry(c: Node, path: string, rel: string, pluginName: string) returns (ok: bool)
      modifies this
      ensures cellMap == AppendAll(old(cellMap), CellPairs(pluginName, WalkNode(c, path, rel)))
      ensures ok == CellOk(WalkNode(c, path, rel))
      decreases c, 0
    {
      var full := JoinPath(path, c.name);
      var r := RelJoin(rel, c.name);
      match c {
        case Dir(_, sub) =>
          ok := ScanDir(sub, full, r, pluginName);
        case File(n) =>
          var e := Entry(n, full, r);
          assert [e][1..] == [];
          assert CellPairs(pluginName, [e]) == EntryPairs(pluginName, e);
          assert CellOk([e]) == !Crashes(e);
          ok := PushView(e, pluginName);
      }
    }

    /** A regular file met by `scanDir`: a `.php` view is pushed under its
        key (and its camelised key), or under `<name>::undefined` before
        throwing when it has no cell directory. */
    method PushView(e: Entry, pluginName: string) returns (ok: bool)
      modifies this
      ensures cellMap == AppendAll(old(cellMap), EntryPairs(pluginName, e))
      ensures ok == !Crashes(e)
    {
      ok := true;
      if IsPhp(e.name) {
        var cellPath := DropLast(e.rel, 4);
        var parts := Split(cellPath, "/");
        assert parts == CellPieces(e);
        if |parts| == 1 {
          cellMap := Append(cellMap, CellKey(pluginName, parts[0], "undefined"), e.full);
          ok := false;
          AppendOne(old(cellMap), CellKey(pluginName, parts[0], "undefined"), e.full);
        } else {
          var cellName := parts[|parts| - 2];
          var viewName := parts[|parts| - 1];
          var key := CellKey(pluginName, cellName, viewName);
          assert EntryPairs(pluginName, e) == ViewPairs(pluginName, cellName, viewName, e.full);
          cellMap := Append(cellMap, key, e.full);
          if '_' in viewName {
            var camelizedKey := CellKey(pluginName, cellName, VariableCamelize(viewName));
            cellMap := Append(cellMap, camelizedKey, e.full);
            AppendTwo(old(cellMap), key, camelizedKey, e.full);
          } else {
            AppendOne(old(cellMap), key, e.full);
          }
        }
      } else {
        assert EntryPairs(pluginName, e) == [];
      }
    }

    method ScanPluginOverrides(fs: Node, pluginPath: string) returns (ok: bool)
      modifies this
      ensures (cellMap, ok) == RunSteps(old(cellMap), OverrideRoot(fs, pluginPath, "cell"), CellScan)
    {
      ghost var m := cellMap;
      match Locate(fs, pluginPath)
      case None =>
        ok := true;
      case Some(File(_)) =>
        ok := false;
        RunOne(m, NotADirectory(pluginPath), CellScan);
      case Some(Dir(_, cs)) =>
        ok := ScanNestedPlugins(cs, pluginPath, []);
    }

    method ScanNestedPlugins(cs: seq<Node>, path: string, ns: seq<string>) returns (ok: bool)
      modifies this
      ensures (cellMap, ok) == RunSteps(old(cellMap), OverrideSteps(cs, path, ns, "cell"), CellScan)
      decreases cs, 1
    {
      ghost var m := cellMap;
      ghost var ss := OverrideNodes(cs, path, ns, "cell");
      OverrideFlatten(cs, path, ns, "cell");
      ok := true;
      var i := 0;
      RunNone(m, ss, CellScan);
      while i < |cs|
        invariant 0 <= i <= |cs|
        invariant (cellMap, true) == RunSteps(m, Flatten(ss[..i]), CellScan)
        decreases |cs| - i
      {
        ghost var before := cellMap;
        ok := ScanNestedItem(cs[i], path, ns);
        RunNext(m, ss, i, before, cellMap, ok, CellScan);
        if !ok {
          return;
        }
        i := i + 1;
      }
      FlattenAll(ss);
    }

    method ScanNestedItem(c: Node, path: string, ns: seq<string>) returns (ok: bool)
      modifies this
      ensures (cellMap, ok) == RunSteps(old(cellMap), OverrideNode(c, path, ns, "cell"), CellScan)
      decreases c, 0
    {
      ghost var m := cellMap;
      match c {
        case File(_) =>
          ok := true;
        case Dir(n, sub) =>
          var fullItemPath := JoinPath(path, n);
          var updated := ns + [n];
          var cellPath := JoinPath(fullItemPath, "cell");
          ghost var here := StepAt(Child(sub, "cell"), cellPath, Join(updated, "/"));
          ok := true;
          if Child(sub, "cell").Some? {
            var pluginName := Join(updated, "/");
            ok := ScanCellDirectory(Child(sub, "cell"), cellPath, pluginName);
          }
          if !ok {
            RunStepsStop(m, here, OverrideSteps(sub, fullItemPath, updated, "cell"), CellScan);
            return;
          }
          ghost var mid := cellMap;
          ok := ScanNestedPlugins(sub, fullItemPath, updated);
          RunStepsThen(m, here, OverrideSteps(sub, fullItemPath, updated, "cell"), mid, CellScan);
      }
    }
  }

  lemma AppendOne(m0: Index, k: string, p: string)
    ensures AppendAll(m0, [(k, p)]) == Append(m0, k, p)
  {
    assert [(k, p)][1..] == [];
  }

  /** Pushing two keys for the same file. */
  lemma AppendTwo(m0: Index, k1: string, k2: string, p: string)
    ensures AppendAll(m0, [(k1, p), (k2, p)]) == Append(Append(m0, k1, p), k2, p)
  {
    assert [(k1, p), (k2, p)][1..] == [(k2, p)];
    AppendOne(Append(m0, k1, p), k2, p);
  }

  lemma CellWalkSnoc(m0: Index, cs: seq<Node>, i: nat, path: string, rel: string, pluginName: string)
    requires i < |cs|
    requires CellOk(Walk(cs[..i], path, rel))
    ensures AppendAll(m0, CellPairs(pluginName, Walk(cs[..i + 1], path, rel)))
         == AppendAll(AppendAll(m0, CellPairs(pluginName, Walk(cs[..i], path, rel))),
                      CellPairs(pluginName, WalkNode(cs[i], path, rel)))
    ensures CellOk(Walk(cs[..i + 1], path, rel)) == CellOk(WalkNode(cs[i], path, rel))
  {
    WalkSnoc(cs, i, path, rel);
    var w := Walk(cs[..i], path, rel);
    var wn := WalkNode(cs[i], path, rel);
    CellPairsConcat(pluginName, w, wn);
    CellOkConcat(w, wn);
    AppendAllConcat(m0, CellPairs(pluginName, w), CellPairs(pluginName, wn));
  }

  /** A file that threw in entry `i`: the later entries add nothing. */
  lemma CellWalkStop(cs: seq<Node>, i: nat, path: string, rel: string, pluginName: string)
    requires i < |cs|
    requires !CellOk(Walk(cs[..i + 1], path, rel))
    ensures CellPairs(pluginName, Walk(cs, path, rel)) == CellPairs(pluginName, Walk(cs[..i + 1], path, rel))
    ensures !CellOk(Walk(cs, path, rel))
  {
    var a, b := cs[..i + 1], cs[i + 1..];
    SplitAt(cs, i + 1);
    WalkConcat(a, b, path, rel);
    CellStop(pluginName, Walk(a, path, rel), Walk(b, path, rel));
  }

  lemma CellStop(pluginName: string, w: seq<Entry>, rest: seq<Entry>)
    requires !CellOk(w)
    ensures CellPairs(pluginName, w + rest) == CellPairs(pluginName, w)
    ensures !CellOk(w + rest)
  {
    CellPairsConcat(pluginName, w, rest);
    CellOkConcat(w, rest);
  }

  lemma SplitAt(cs: seq<Node>, k: nat)
    requires k <= |cs|
    ensures cs[..k] + cs[k..] == cs
  {
  }
}
