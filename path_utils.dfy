/** Convention-based candidate directories (`constructSearchPaths`) and the
    `FileInfo` record every resolver returns (`createFileInfo`). */
module PathUtils {
  import opened Text
  import opened NodePath
  import opened FileSystem

  /** The kinds of reference a search can be for. */
  datatype Kind = Template | Element | Cell | CellClass | Js | Css | Email

  /** A resolved file: its basename, its path (the `fileUri`'s `fsPath`) and
      the path shown to the user, relative to the workspace root. */
  datatype FileInfo = FileInfo(name: string, fsPath: string, showPath: string)

  /** `createFileInfo(filePath, workspaceFolder)`. */
  function CreateFileInfo(file: string, root: string): (r: FileInfo)
    ensures r.fsPath == file && Sep !in r.name
  {
    FileInfo(Basename(file), file, Relative(root, file))
  }

  /** The shown name is the file's base name: the last segment of its path. */
  lemma CreateFileInfoName(file: string, root: string)
    ensures var r := CreateFileInfo(file, root);
      r.name == Basename(file) && (EndsWith(file, r.name) || EndsWith(file, r.name + [Sep]))
  {
    var q := DropTrailingSep(file);
    var b := Basename(file);
    BasenameLastSegment(file);
    if q != file {
      assert file == q + [Sep];
      var t := file[|q| - |b|..];
      assert t == q[|q| - |b|..] + [Sep];
      assert t == b + [Sep];
    }
  }

  /** A file below the workspace root is shown by its path below the root. */
  lemma CreateFileInfoBelow(root: string, rel: string)
    requires root != "" && !EndsWith(root, "/") && Clean(rel)
    ensures CreateFileInfo(JoinPath(root, rel), root).showPath == rel
  {
    RelativeJoin(root, rel);
  }

  // ---------------------------------------------------------------------
  // base directories

  /** The entries of `<root>/plugins` (`readdirSync` lists regular files as well),
      or `None` when it does not exist. */
  function PluginFolders(fs: Node, root: string): (r: Option<seq<string>>)
    ensures var found := Locate(fs, JoinPath(root, "plugins"));
      (r.Some? <==> found.Some? && found.value.Dir?) &&
      (r.Some? ==> |r.value| == |found.value.children|)
  {
    match Locate(fs, JoinPath(root, "plugins"))
    case Some(Dir(_, cs)) => Some(EntryNames(cs))
    case _ => None
  }

  function EntryNames(cs: seq<Node>): (r: seq<string>)
    ensures |r| == |cs| && forall i :: 0 <= i < |cs| ==> r[i] == cs[i].name
  {
    seq(|cs|, i requires 0 <= i < |cs| => cs[i].name)
  }

  /** `vendor/<plugin lower-cased, first '/' turned into '-'>`. */
  function VendorPath(root: string, plugin: string): string {
    Join3(root, "vendor", ReplaceFirst(Lower(plugin), '/', '-'))
  }

  /** `templates/plugin/<plugin>` (`plugin.replace('/', path.sep)` changes nothing with `/` as separator). */
  function AppPluginPath(root: string, plugin: string): string {
    Join4(root, "templates", "plugin", plugin)
  }

  /** The bases added before the `plugins/` folders. */
  function LeadingBases(root: string, plugin: Option<string>, pluginPath: Option<string>): (r: seq<string>)
    ensures |r| <= 2
    ensures Truthy(pluginPath) ==> |r| >= 1 && r[0] == pluginPath.value
    ensures !Truthy(pluginPath) && Truthy(plugin) ==> |r| >= 1 && r[0] == VendorPath(root, plugin.value)
    ensures Truthy(plugin) ==> |r| >= 1 && r[|r| - 1] == AppPluginPath(root, plugin.value)
    ensures !Truthy(plugin) ==> r == (if Truthy(pluginPath) then [pluginPath.value] else [])
  {
    (if Truthy(pluginPath) then [pluginPath.value]
     else if Truthy(plugin) then [VendorPath(root, plugin.value)]
     else [])
    + (if Truthy(plugin) then [AppPluginPath(root, plugin.value)] else [])
  }

  /** The bases one entry of `plugins/` contributes. */
  function FolderBases(pluginsPath: string, folder: string, kind: Kind, plugin: Option<string>): seq<string> {
    if kind == Js || kind == Css then [JoinPath(pluginsPath, folder)]
    else
      (if Truthy(plugin) then [Join5(pluginsPath, folder, "templates", "plugin", plugin.value)] else [])
      + [Join3(pluginsPath, folder, "templates")]
  }

  function AllFolderBases(pluginsPath: string, folders: seq<string>, kind: Kind, plugin: Option<string>): seq<string>
    decreases |folders|
  {
    if folders == [] then []
    else
      var last := |folders| - 1;
      AllFolderBases(pluginsPath, folders[..last], kind, plugin) + FolderBases(pluginsPath, folders[last], kind, plugin)
  }

  lemma AllFolderBasesSnoc(pluginsPath: string, names: seq<string>, i: nat, kind: Kind, plugin: Option<string>)
    requires i < |names|
    ensures AllFolderBases(pluginsPath, names[..i + 1], kind, plugin)
         == AllFolderBases(pluginsPath, names[..i], kind, plugin) + FolderBases(pluginsPath, names[i], kind, plugin)
  {
    assert names[..i + 1][..i] == names[..i];
  }

  /** Every base directory, in the order they are pushed. */
  function BasePaths(root: string, kind: Kind, plugin: Option<string>, pluginPath: Option<string>, folders: Option<seq<string>>): (r: seq<string>)
    ensures var lead := LeadingBases(root, plugin, pluginPath);
      |lead| < |r| && r[..|lead|] == lead && r[|r| - 1] == root
    ensures folders.None? ==> r == LeadingBases(root, plugin, pluginPath) + [root]
  {
    LeadingBases(root, plugin, pluginPath)
    + (if folders.Some? then AllFolderBases(JoinPath(root, "plugins"), folders.value, kind, plugin) else [])
    + [root]
  }

  /** The workspace root is always the last base. */
  lemma RootIsLastBase(root: string, kind: Kind, plugin: Option<string>, pluginPath: Option<string>, folders: Option<seq<string>>)
    ensures var b := BasePaths(root, kind, plugin, pluginPath, folders); |b| >= 1 && b[|b| - 1] == root
  {
  }

  /** The base-path loop of `constructSearchPaths`. */
  method BuildBasePaths(fs: Node, root: string, kind: Kind, plugin: Option<string>, pluginPath: Option<string>)
    returns (bases: seq<string>)
    ensures bases == BasePaths(root, kind, plugin, pluginPath, PluginFolders(fs, root))
  {
    bases := PushLeadingBases(root, plugin, pluginPath);
    var folders := PluginFolders(fs, root);
    var more: seq<string> := [];
    if folders.Some? {
      more := FolderLoop(JoinPath(root, "plugins"), folders.value, kind, plugin);
    }
    bases := bases + more + [root];
  }

  /** The pushes of `constructSearchPaths` before the `plugins/` listing. */
  method PushLeadingBases(root: string, plugin: Option<string>, pluginPath: Option<string>) returns (bases: seq<string>)
    ensures bases == LeadingBases(root, plugin, pluginPath)
  {
    bases := [];
    if Truthy(pluginPath) {
      bases := bases + [pluginPath.value];
    } else if Truthy(plugin) {
      bases := bases + [VendorPath(root, plugin.value)];
    }
    if Truthy(plugin) {
      bases := bases + [AppPluginPath(root, plugin.value)];
    }
  }

  /** The loop over the entries of `plugins/`. */
  method FolderLoop(pluginsPath: string, names: seq<string>, kind: Kind, plugin: Option<string>)
    returns (bases: seq<string>)
    ensures bases == AllFolderBases(pluginsPath, names, kind, plugin)
  {
    bases := [];
    var i := 0;
    while i < |names|
      invariant 0 <= i <= |names|
      invariant bases == AllFolderBases(pluginsPath, names[..i], kind, plugin)
    {
      bases := bases + FolderBases(pluginsPath, names[i], kind, plugin);
      AllFolderBasesSnoc(pluginsPath, names, i, kind, plugin);
      i := i + 1;
    }
    assert names[..|names|] == names;
  }

  // ---------------------------------------------------------------------
  // expansion per kind

  /** `basePath.includes(path.sep + 'plugins' + path.sep)`. */
  predicate UnderPlugins(b: string) {
    Contains(b, "/plugins/")
  }

  /** The template directory of a base: the base itself when its last segment is `templates`. */
  function TemplatesDir(b: string): string {
    if Basename(b) == "templates" then b else JoinPath(b, "templates")
  }

  /** The candidate directories one base expands to. */
  function Expand(kind: Kind, b: string, pluginPath: Option<string>): (r: seq<string>)
    ensures kind == CellClass ==> r == [Join4(b, "src", "View", "Cell")]
    ensures kind == Template && !UnderPlugins(b) ==> r == [TemplatesDir(b)]
  {
    match kind
    case Element => [Join3(b, "templates", "element"), JoinPath(b, "element"), b]
    case CellClass => [Join4(b, "src", "View", "Cell")]
    case Cell =>
      if UnderPlugins(b) then [Join3(b, "templates", "cell"), JoinPath(b, "cell"), Join4(b, "src", "View", "Cell")]
      else [Join3(b, "templates", "cell"), JoinPath(b, "cell"), Join4(b, "src", "View", "Cell"), b, b]
    case Template =>
      if UnderPlugins(b) then [TemplatesDir(b), b, b] else [TemplatesDir(b)]
    case Email =>
      if UnderPlugins(b) then [Join3(b, "templates", "email"), b, b] else [Join3(b, "templates", "email")]
    case Js =>
      [JoinPath(b, "webroot"), Join3(b, "webroot", "js")]
      + (if Truthy(pluginPath) then [Join3(pluginPath.value, "webroot", "js")] else [])
    case Css =>
      [JoinPath(b, "webroot"), Join3(b, "webroot", "css")]
      + (if Truthy(pluginPath) then [Join3(pluginPath.value, "webroot", "css")] else [])
  }

  /** `basePaths.flatMap(expand)`. */
  function ExpandAll(kind: Kind, bases: seq<string>, pluginPath: Option<string>): (r: seq<string>)
    ensures forall x :: x in r <==> exists b :: b in bases && x in Expand(kind, b, pluginPath)
    decreases |bases|
  {
    if bases == [] then []
    else
      var rest := ExpandAll(kind, bases[1..], pluginPath);
      assert forall b :: b in bases <==> b == bases[0] || b in bases[1..];
      Expand(kind, bases[0], pluginPath) + rest
  }

  predicate StrictlySorted(s: seq<string>) {
    forall i, j :: 0 <= i < j < |s| ==> Le(s[i], s[j]) && s[i] != s[j]
  }

  /** `Array.from(new Set(xs)).sort(...)`. */
  function DistinctSorted(xs: seq<string>): (r: seq<string>)
    ensures StrictlySorted(r)
    ensures forall x :: x in r <==> x in xs
  {
    var d := Distinct(xs);
    var r := SortStrings(d);
    SortByNoDuplicates(d, (x: string) => x);
    assert forall x :: x in r <==> x in multiset(r);
    assert forall x :: x in d <==> x in multiset(d);
    r
  }

  /** The result of `constructSearchPaths`: sorted, without duplicates, and
      holding exactly the expansions of the base paths. */
  function SearchPaths(root: string, kind: Kind, plugin: Option<string>, pluginPath: Option<string>, folders: Option<seq<string>>): (r: seq<string>)
    ensures StrictlySorted(r)
    ensures forall x :: x in r <==>
      exists b :: b in BasePaths(root, kind, plugin, pluginPath, folders) && x in Expand(kind, b, pluginPath)
  {
    DistinctSorted(ExpandAll(kind, BasePaths(root, kind, plugin, pluginPath, folders), pluginPath))
  }

  method ConstructSearchPaths(fs: Node, root: string, kind: Kind, plugin: Option<string>, pluginPath: Option<string>)
    returns (r: seq<string>)
    ensures r == SearchPaths(root, kind, plugin, pluginPath, PluginFolders(fs, root))
  {
    var bases := BuildBasePaths(fs, root, kind, plugin, pluginPath);
    r := DistinctSorted(ExpandAll(kind, bases, pluginPath));
  }

  /** Elements are always looked for in the application's `templates/element`. */
  lemma ElementSearchHasAppElements(root: string, plugin: Option<string>, pluginPath: Option<string>, folders: Option<seq<string>>)
    ensures Join3(root, "templates", "element") in SearchPaths(root, Element, plugin, pluginPath, folders)
  {
    RootIsLastBase(root, Element, plugin, pluginPath, folders);
    var b := BasePaths(root, Element, plugin, pluginPath, folders);
    assert b[|b| - 1] in b;
    assert Join3(root, "templates", "element") in Expand(Element, root, pluginPath);
  }

  /** For `cellClass` the candidates are exactly `<base>/src/View/Cell`. */
  lemma CellClassSearchPaths(root: string, plugin: Option<string>, pluginPath: Option<string>, folders: Option<seq<string>>, x: string)
    ensures x in SearchPaths(root, CellClass, plugin, pluginPath, folders) <==>
      exists b :: b in BasePaths(root, CellClass, plugin, pluginPath, folders) && x == Join4(b, "src", "View", "Cell")
  {
    var bases := BasePaths(root, CellClass, plugin, pluginPath, folders);
    var sp := SearchPaths(root, CellClass, plugin, pluginPath, folders);
    if x in sp {
      var b :| b in bases && x in Expand(CellClass, b, pluginPath);
      ExpandCellClass(b, pluginPath);
    }
    if exists b :: b in bases && x == Join4(b, "src", "View", "Cell") {
      var b :| b in bases && x == Join4(b, "src", "View", "Cell");
      ExpandCellClass(b, pluginPath);
      assert x in Expand(CellClass, b, pluginPath);
    }
  }

  lemma ExpandCellClass(b: string, pluginPath: Option<string>)
    ensures Expand(CellClass, b, pluginPath) == [Join4(b, "src", "View", "Cell")]
  {
  }

  /** For scripts: every base's `webroot` and `webroot/js`, and the plugin
      root's `webroot/js` when one is given; nothing else. */
  lemma JsSearchPaths(root: string, plugin: Option<string>, pluginPath: Option<string>, folders: Option<seq<string>>, x: string)
    ensures x in SearchPaths(root, Js, plugin, pluginPath, folders) <==>
      (exists b :: b in BasePaths(root, Js, plugin, pluginPath, folders) && x in JsDirs(b))
      || (Truthy(pluginPath) && x == Join3(pluginPath.value, "webroot", "js"))
  {
    var bases := BasePaths(root, Js, plugin, pluginPath, folders);
    forall b | b in bases
      ensures Expand(Js, b, pluginPath) == JsDirs(b) + (if Truthy(pluginPath) then [Join3(pluginPath.value, "webroot", "js")] else [])
    {
    }
    RootIsLastBase(root, Js, plugin, pluginPath, folders);
    assert root in bases;
  }

  function JsDirs(b: string): seq<string> {
    [JoinPath(b, "webroot"), Join3(b, "webroot", "js")]
  }

  /** For stylesheets: every base's `webroot` and `webroot/css`, and the
      plugin root's `webroot/css` when one is given; nothing else. */
  lemma CssSearchPaths(root: string, plugin: Option<string>, pluginPath: Option<string>, folders: Option<seq<string>>, x: string)
    ensures x in SearchPaths(root, Css, plugin, pluginPath, folders) <==>
      (exists b :: b in BasePaths(root, Css, plugin, pluginPath, folders) && x in CssDirs(b))
      || (Truthy(pluginPath) && x == Join3(pluginPath.value, "webroot", "css"))
  {
    var bases := BasePaths(root, Css, plugin, pluginPath, folders);
    forall b | b in bases
      ensures Expand(Css, b, pluginPath) == CssDirs(b) + (if Truthy(pluginPath) then [Join3(pluginPath.value, "webroot", "css")] else [])
    {
    }
    RootIsLastBase(root, Css, plugin, pluginPath, folders);
    assert root in bases;
  }

  function CssDirs(b: string): seq<string> {
    [JoinPath(b, "webroot"), Join3(b, "webroot", "css")]
  }

  /** For each `plugins/` entry, scripts and stylesheets use the entry itself
      as a base and every other kind uses its `templates`. */
  lemma FolderBasesByKind(pluginsPath: string, folder: string, kind: Kind, plugin: Option<string>)
    ensures kind == Js || kind == Css ==> FolderBases(pluginsPath, folder, kind, plugin) == [JoinPath(pluginsPath, folder)]
    ensures kind != Js && kind != Css ==>
      Join3(pluginsPath, folder, "templates") in FolderBases(pluginsPath, folder, kind, plugin)
    ensures kind != Js && kind != Css && Truthy(plugin) ==>
      Join5(pluginsPath, folder, "templates", "plugin", plugin.value) in FolderBases(pluginsPath, folder, kind, plugin)
  {
  }
}
