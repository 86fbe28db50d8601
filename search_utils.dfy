/** `searchUtils`: which lookup a reference found in a document goes to,
    the `asset_compress.ini` rules, and the cell-view lookup for a method
    name. The regular expressions of `SEARCH_PATTERNS` are not modelled:
    their captures arrive as given strings. */
module SearchUtils {
  import opened Text
  import opened Dicts
  import opened NodePath
  import opened FileSystem
  import opened StringUtils
  import opened PluginUtils
  import opened PathUtils
  import opened Autoload
  import opened FileUtils
  import ElementMapper
  import CellMapper
  import AssetMapper

  // ---------------------------------------------------------------------
  // asset_compress.ini

  /** A JavaScript line terminator (what `.` in a regular expression does not match). */
  predicate IsLineTerminator(c: char) {
    c == '\n' || c == '\r' || c == '\U{2028}' || c == '\U{2029}'
  }

  /** Length of the run of characters other than `:` that starts `s`. */
  function NonColonRun(s: string): (n: nat)
    ensures n <= |s| && (forall k :: 0 <= k < n ==> s[k] != ':')
    ensures n < |s| ==> s[n] == ':'
  {
    if s != [] && s[0] != ':' then 1 + NonColonRun(s[1..]) else 0
  }

  /** Length of the run of characters other than line terminators that starts `s`. */
  function LineRun(s: string): (n: nat)
    ensures n <= |s| && (forall k :: 0 <= k < n ==> !IsLineTerminator(s[k]))
    ensures n < |s| ==> IsLineTerminator(s[n])
  {
    if s != [] && !IsLineTerminator(s[0]) then 1 + LineRun(s[1..]) else 0
  }

  /** `<tag>([^:]+):(.+)` matched at the start of `t`: the plugin name and
      the path inside the plugin. The name run cannot give back characters,
      since the character after it has to be the `:` that stopped it. */
  function PluginRefAt(t: string, tag: string): (r: Option<(string, string)>)
    ensures r.Some? ==> StartsWith(t, tag) && r.value.0 != "" && r.value.1 != "" && ':' !in r.value.0
    ensures r.Some? ==> |tag| + |r.value.0| + 1 + |r.value.1| <= |t|
    ensures r.Some? ==> t[..|tag| + |r.value.0| + 1 + |r.value.1|] == tag + r.value.0 + ":" + r.value.1
  {
    if !StartsWith(t, tag) then None
    else
      var rest := t[|tag|..];
      var n := NonColonRun(rest);
      if n == 0 || n == |rest| then None
      else
        var after := rest[n + 1..];
        var m := LineRun(after);
        if m == 0 then None
        else
          assert forall k :: 0 <= k < n ==> rest[..n][k] != ':';
          assert t[..|tag| + n + 1 + m] == t[..|tag|] + rest[..n] + ":" + after[..m];
          Some((rest[..n], after[..m]))
  }

  /** The leftmost match of `<tag>([^:]+):(.+)` at or after position `i`. */
  function PluginRefFrom(t: string, tag: string, i: nat): Option<(string, string)>
    requires i <= |t|
    decreases |t| - i
  {
    match PluginRefAt(t[i..], tag)
    case Some(c) => Some(c)
    case None => if i == |t| then None else PluginRefFrom(t, tag, i + 1)
  }

  /** `filePath.match(/<tag>([^:]+):(.+)/)`: both captures, if it matches. */
  function PluginRef(t: string, tag: string): Option<(string, string)> {
    PluginRefFrom(t, tag, 0)
  }

  /** `'css'` exactly when the lower-cased extension is `.css`, otherwise `'js'`. */
  function AssetType(filePath: string): (r: string)
    ensures r == "css" <==> Lower(ExtName(filePath)) == ".css"
    ensures r == "css" || r == "js"
  {
    if Lower(ExtName(filePath)) == ".css" then "css" else "js"
  }

  /** The prefix `p:` or `plugin:` that marks a plugin asset. */
  function PluginTag(filePath: string): Option<string> {
    if StartsWith(filePath, "p:") then Some("p:")
    else if StartsWith(filePath, "plugin:") then Some("plugin:")
    else None
  }

  /** The file an application asset reference names. */
  function AppAssetPath(root: string, filePath: string): (r: string)
    ensures StartsWith(r, JoinPath(root, "webroot"))
    ensures StartsWith(filePath, "/") ==> r == Join3(root, "webroot", filePath)
    ensures !StartsWith(filePath, "/") ==> r == Join4(root, "webroot", AssetType(filePath), filePath)
  {
    WebrootPrefix(root, AssetType(filePath), filePath);
    if StartsWith(filePath, "/") then Join3(root, "webroot", filePath)
    else Join4(root, "webroot", AssetType(filePath), filePath)
  }

  /** The file a plugin asset reference names, below the plugin's root. */
  function PluginAssetPath(pluginPath: string, pluginFilePath: string, assetType: string): (r: string)
    requires assetType == "css" || assetType == "js"
    ensures StartsWith(r, JoinPath(pluginPath, "webroot"))
    ensures StartsWith(pluginFilePath, "/") || StartsWith(pluginFilePath, assetType) ==>
      r == Join3(pluginPath, "webroot", pluginFilePath)
    ensures !StartsWith(pluginFilePath, "/") && !StartsWith(pluginFilePath, assetType) ==>
      r == Join4(pluginPath, "webroot", assetType, pluginFilePath)
  {
    WebrootPrefix(pluginPath, assetType, pluginFilePath);
    if StartsWith(pluginFilePath, "/") || StartsWith(pluginFilePath, assetType) then Join3(pluginPath, "webroot", pluginFilePath)
    else Join4(pluginPath, "webroot", assetType, pluginFilePath)
  }

  /** Joining onto a path that does not end in `/` keeps it as a prefix. */
  lemma JoinPathExtends(a: string, b: string)
    requires a != "" && !EndsWith(a, "/")
    ensures StartsWith(JoinPath(a, b), a)
  {
    if b != "" {
      assert a[|a| - 1..] == [a[|a| - 1]];
      var b' := if b[0] == Sep then b[1..] else b;
      assert JoinPath(a, b) == a + ("/" + b');
    }
  }

  /** Joining a segment that neither starts nor ends with `/` gives a
      non-empty path that does not end in `/`. */
  lemma JoinPathSegment(a: string, b: string)
    requires b != "" && b[0] != '/' && b[|b| - 1] != '/'
    ensures JoinPath(a, b) != "" && !EndsWith(JoinPath(a, b), "/")
  {
    var r := JoinPath(a, b);
    if a != "" {
      var a' := if a[|a| - 1] == Sep then a[..|a| - 1] else a;
      assert r == a' + "/" + b;
      assert r[|r| - 1] == b[|b| - 1];
    } else {
      assert r == b;
    }
    assert r[|r| - 1..] == [r[|r| - 1]];
  }

  lemma StartsWithTrans(s: string, t: string, u: string)
    requires StartsWith(s, t) && StartsWith(t, u)
    ensures StartsWith(s, u)
  {
    assert s[..|u|] == s[..|t|][..|u|];
  }

  /** Both shapes of asset path lie below `<base>/webroot`. */
  lemma WebrootPrefix(base: string, assetType: string, file: string)
    requires assetType == "css" || assetType == "js"
    ensures StartsWith(Join3(base, "webroot", file), JoinPath(base, "webroot"))
    ensures StartsWith(Join4(base, "webroot", assetType, file), JoinPath(base, "webroot"))
  {
    var w := JoinPath(base, "webroot");
    JoinPathSegment(base, "webroot");
    JoinPathExtends(w, file);
    JoinPathSegment(w, assetType);
    JoinPathExtends(w, assetType);
    JoinPathExtends(Join3(base, "webroot", assetType), file);
    StartsWithTrans(Join4(base, "webroot", assetType, file), Join3(base, "webroot", assetType), w);
  }

  /** The file named on an `asset_compress.ini` line, given the capture of
      `files\[\]\s*=\s*(.+)$` (`None` when the line does not match) and the
      plugin namespaces `getPluginPath` reads. No file is looked at. */
  function AssetCompressPath(pluginNs: Option<NsMap>, root: string, capture: Option<string>): (r: Option<string>)
    ensures capture.None? ==> r.None?
    ensures capture.Some? && PluginTag(Trim(capture.value)).None? ==>
      r == Some(AppAssetPath(root, Trim(capture.value)))
    ensures capture.Some? && PluginTag(Trim(capture.value)).Some? ==>
      var c := PluginRef(Trim(capture.value), PluginTag(Trim(capture.value)).value);
      (r.Some? <==> c.Some? && LookupPluginPath(pluginNs, c.value.0).Some?) &&
      (r.Some? ==> r.value == PluginAssetPath(LookupPluginPath(pluginNs, c.value.0).value, c.value.1, AssetType(Trim(capture.value))))
  {
    if capture.None? then None
    else
      var filePath := Trim(capture.value);
      match PluginTag(filePath)
      case None => Some(AppAssetPath(root, filePath))
      case Some(tag) =>
        match PluginRef(filePath, tag)
        case None => None
        case Some(c) =>
          match LookupPluginPath(pluginNs, c.0)
          case None => None
          case Some(pluginPath) => Some(PluginAssetPath(pluginPath, c.1, AssetType(filePath)))
  }

  /** `getAssetCompressFiles` with the crash on a plugin reference that does
      not match removed: at most one file, the one the line names. */
  function AssetCompressFiles(pluginNs: Option<NsMap>, root: string, capture: Option<string>): (r: seq<FileInfo>)
    ensures |r| <= 1
    ensures r == [] <==> AssetCompressPath(pluginNs, root, capture).None?
    ensures r != [] ==> r[0] == CreateFileInfo(AssetCompressPath(pluginNs, root, capture).value, root)
  {
    match AssetCompressPath(pluginNs, root, capture)
    case None => []
    case Some(p) =>
      DedupSingle(CreateFileInfo(p, root));
      RemoveDuplicatesAndSort([CreateFileInfo(p, root)])
  }

  /** De-duplicating one file gives it back. */
  lemma DedupSingle(x: FileInfo)
    ensures RemoveDuplicatesAndSort([x]) == [x]
  {
    assert [x][..0] == [];
    assert ByPath([x]) == Put(Empty(), x.fsPath, x);
    assert Values(ByPath([x])) == [x];
    var s := SortBy([x], ShowPath);
    assert multiset(s) == multiset{x};
    assert s[0] in multiset(s);
  }

  /** What `getAssetCompressFiles` does: a file list, or the exception it throws. */
  datatype Outcome = Files(files: seq<FileInfo>) | Crash

  /** `getAssetCompressFiles` as written: when a `p:`/`plugin:` reference
      does not match its pattern, `|| []` leaves the plugin name
      `undefined`, and `getPluginPath` calls `replace` on it as soon as a
      namespace map is set. */
  function AssetCompressFilesAsWritten(pluginNs: Option<NsMap>, root: string, capture: Option<string>): (r: Outcome)
    ensures capture.None? ==> r == Files([])
    ensures r.Crash? ==> capture.Some? && pluginNs.Some?
    ensures r.Files? ==> r.files == AssetCompressFiles(pluginNs, root, capture)
  {
    if capture.None? then Files([])
    else
      var filePath := Trim(capture.value);
      match PluginTag(filePath)
      case None => Files(AssetCompressFiles(pluginNs, root, capture))
      case Some(tag) =>
        if PluginRef(filePath, tag).None? && pluginNs.Some? then Crash
        else Files(AssetCompressFiles(pluginNs, root, capture))
  }

  /** The code as written throws exactly on an unmatched plugin reference
      with a namespace map set; otherwise it agrees with the corrected one. */
  lemma AssetCompressAsWrittenAgrees(pluginNs: Option<NsMap>, root: string, capture: Option<string>)
    ensures var out := AssetCompressFilesAsWritten(pluginNs, root, capture);
      (out.Crash? <==> capture.Some? && pluginNs.Some? && PluginTag(Trim(capture.value)).Some? &&
                       PluginRef(Trim(capture.value), PluginTag(Trim(capture.value)).value).None?) &&
      (out.Files? ==> out.files == AssetCompressFiles(pluginNs, root, capture))
  {
  }

  /** `files[] = p:Blog` (no second colon) throws once `getFilePaths` has set
      the namespace map; the corrected version finds nothing. */
  lemma AssetCompressCrashExample(nsMap: NsMap, root: string)
    ensures AssetCompressFilesAsWritten(Some(nsMap), root, Some("p:Blog")) == Crash
    ensures AssetCompressFiles(Some(nsMap), root, Some("p:Blog")) == []
  {
    BlogReference();
  }

  /** A trimmed, untagged script name that does not start with `/` resolves
      to `<root>/webroot/js/<name>`. */
  lemma AppScript(pluginNs: Option<NsMap>, root: string, t: string)
    requires root != "" && root[|root| - 1] != Sep
    requires t != "" && t[0] != Sep
    requires Trim(t) == t && PluginTag(t).None? && AssetType(t) == "js"
    ensures AssetCompressPath(pluginNs, root, Some(t)) == Some(root + "/webroot/js/" + t)
  {
    NotRooted(t);
    ScriptJoin(root, t);
    assert AssetCompressPath(pluginNs, root, Some(t)) == Some(AppAssetPath(root, t));
  }

  /** The application script path, written out. */
  lemma ScriptJoin(root: string, t: string)
    requires root != "" && root[|root| - 1] != Sep
    requires t != "" && t[0] != Sep
    ensures Join4(root, "webroot", "js", t) == root + "/webroot/js/" + t
  {
    JoinSegments(root, "webroot", "js", t);
    assert root + "/" + "webroot" + "/" + "js" + "/" + t == root + "/webroot/js/" + t;
  }

  /** A name whose first character is not `/` does not start with "/". */
  lemma NotRooted(t: string)
    requires t != "" && t[0] != Sep
    ensures !StartsWith(t, "/")
  {
    assert t[..1] != "/";
  }

  /** Joining segments without separators at their ends puts one `/` between each. */
  lemma JoinSegments(a: string, b: string, c: string, d: string)
    requires a != "" && a[|a| - 1] != Sep
    requires b != "" && b[0] != Sep && b[|b| - 1] != Sep
    requires c != "" && c[0] != Sep && c[|c| - 1] != Sep
    requires d != "" && d[0] != Sep
    ensures Join3(a, b, c) == a + "/" + b + "/" + c
    ensures Join4(a, b, c, d) == a + "/" + b + "/" + c + "/" + d
  {
    assert JoinPath(a, b) == a + "/" + b;
    var ab := a + "/" + b;
    assert ab[|ab| - 1] == b[|b| - 1];
    assert JoinPath(ab, c) == ab + "/" + c;
    var abc := ab + "/" + c;
    assert abc[|abc| - 1] == c[|c| - 1];
    assert JoinPath(abc, d) == abc + "/" + d;
  }

  /** The three plugin branches: a leading `/` or the type's own folder is
      taken below `webroot` as is; anything else gets the type's folder. */
  lemma PluginAssetExamples()
    ensures PluginAssetPath("/p/Blog", "/x.js", "js") == "/p/Blog/webroot/x.js"
    ensures PluginAssetPath("/p/Blog", "js/x.js", "js") == "/p/Blog/webroot/js/x.js"
    ensures PluginAssetPath("/p/Blog", "x.js", "js") == "/p/Blog/webroot/js/x.js"
  {
    JoinSegments("/p/Blog", "webroot", "x.js", "x.js");
    JoinSegments("/p/Blog", "webroot", "js", "x.js");
    var w := "/p/Blog" + "/" + "webroot";
    assert w[|w| - 1] != Sep;
    assert JoinPath(w, "/x.js") == w + "/" + "x.js";
    assert JoinPath(w, "js/x.js") == w + "/" + "js/x.js";
  }

  /** `p:Blog` is already trimmed, carries the `p:` tag and names no file. */
  lemma BlogReference()
    ensures Trim("p:Blog") == "p:Blog"
    ensures PluginTag("p:Blog") == Some("p:")
    ensures PluginRef("p:Blog", "p:").None?
  {
    var t := "p:Blog";
    assert Trim(t) == t by {
      assert TrimStart(t) == t;
      assert TrimEnd(t) == t;
    }
    assert PluginTag(t) == Some("p:");
    PluginRefNone(t, "p:");
  }

  /** A reference with no second colon does not match the plugin pattern. */
  lemma PluginRefNone(t: string, tag: string)
    requires tag != "" && tag[|tag| - 1] == ':'
    requires forall k :: 0 <= k < |t| && t[k] == ':' ==> k == |tag| - 1
    requires StartsWith(t, tag)
    ensures PluginRef(t, tag).None?
  {
    PluginRefFromNone(t, tag, 0);
  }

  lemma {:induction false} PluginRefFromNone(t: string, tag: string, i: nat)
    requires i <= |t| && tag != "" && tag[|tag| - 1] == ':'
    requires forall k :: 0 <= k < |t| && t[k] == ':' ==> k == |tag| - 1
    requires StartsWith(t, tag)
    ensures PluginRefFrom(t, tag, i).None?
    decreases |t| - i
  {
    var u := t[i..];
    if i == 0 {
      var rest := u[|tag|..];
      assert forall k :: 0 <= k < |rest| ==> rest[k] == t[|tag| + k];
    }
    assert PluginRefAt(u, tag).None?;
    if i < |t| {
      PluginRefFromNone(t, tag, i + 1);
    }
  }

  // ---------------------------------------------------------------------
  // getWordAtPosition on asset_compress.ini

  /** The trimmed line starts with `files[]`, then blanks, then `=`. */
  predicate IsFilesLine(t: string) {
    StartsWith(t, "files[]") &&
    var rest := t[7..];
    var n := SpaceRun(rest);
    n < |rest| && rest[n] == '='
  }

  /** The path on a `files[] =` line of `asset_compress.ini`: the text
      after the line's first `=`, trimmed. */
  function IniFilePath(line: string): (r: Option<string>)
    ensures r.Some? <==> IsFilesLine(Trim(line))
    ensures r.Some? ==> |r.value| <= |line|
    ensures r.Some? && r.value != [] ==> !IsSpace(r.value[0]) && !IsSpace(r.value[|r.value| - 1])
  {
    if !IsFilesLine(Trim(line)) then None
    else
      match IndexOf(line, "=")
      case Some(k) => Some(Trim(line[k + 1..]))
      case None => Some(Trim(line))
  }

  /** `getWordAtPosition`: on a `files[] =` line of `asset_compress.ini`
      the listed path; otherwise `patternWord`, the text the pattern search
      found under the cursor (`''` when none). */
  function GetWordAtPosition(fileName: string, line: string, patternWord: string): (r: string)
    ensures Basename(fileName) == "asset_compress.ini" && IsFilesLine(Trim(line)) ==> IniFilePath(line) == Some(r)
    ensures Basename(fileName) != "asset_compress.ini" || !IsFilesLine(Trim(line)) ==> r == patternWord
  {
    if Basename(fileName) == "asset_compress.ini" && IniFilePath(line).Some? then IniFilePath(line).value
    else patternWord
  }

  lemma {:induction false} TrimEndKeeps(a: string, b: string)
    requires a != [] && !IsSpace(a[|a| - 1])
    ensures StartsWith(TrimEnd(a + b), a)
    decreases |b|
  {
    if b == [] {
      assert a + b == a;
    } else if IsSpace(b[|b| - 1]) {
      assert (a + b)[..|a + b| - 1] == a + b[..|b| - 1];
      TrimEndKeeps(a, b[..|b| - 1]);
    } else {
      assert (a + b)[..|a|] == a;
    }
  }

  lemma {:induction false} SpaceRunOf(sp: string, tail: string)
    requires forall k :: 0 <= k < |sp| ==> IsSpace(sp[k])
    requires tail != [] && !IsSpace(tail[0])
    ensures SpaceRun(sp + tail) == |sp|
    decreases |sp|
  {
    if sp != [] {
      assert (sp + tail)[1..] == sp[1..] + tail;
      SpaceRunOf(sp[1..], tail);
    } else {
      assert sp + tail == tail;
    }
  }

  /** A line `files[]`, blanks, `=`, value yields the trimmed value. */
  lemma IniFilePathOf(sp: string, value: string)
    requires forall k :: 0 <= k < |sp| ==> IsSpace(sp[k])
    ensures IniFilePath("files[]" + sp + "=" + value) == Some(Trim(value))
  {
    var line := "files[]" + sp + "=" + value;
    IniFilesLineOf(sp, value);
    IniFirstEquals(sp, value);
    assert line[|sp| + 8..] == value;
  }

  lemma IniFilesLineOf(sp: string, value: string)
    requires forall k :: 0 <= k < |sp| ==> IsSpace(sp[k])
    ensures IsFilesLine(Trim("files[]" + sp + "=" + value))
  {
    var head := "files[]" + sp + "=";
    var line := head + value;
    assert line == "files[]" + sp + "=" + value;
    assert line[0] == 'f';
    assert TrimStart(line) == line;
    TrimEndKeeps(head, value);
    var t := Trim(line);
    assert t[..|head|] == head;
    assert t[..7] == "files[]";
    var rest := t[7..];
    assert rest[..|sp| + 1] == sp + "=";
    SpaceRunOf(sp, rest[|sp|..]);
    assert rest == sp + rest[|sp|..];
  }

  lemma IniFirstEquals(sp: string, value: string)
    requires forall k :: 0 <= k < |sp| ==> IsSpace(sp[k])
    ensures IndexOf("files[]" + sp + "=" + value, "=") == Some(|sp| + 7)
  {
    var line := "files[]" + sp + "=" + value;
    var k := |sp| + 7;
    assert line[k] == '=';
    assert line[k..k + 1] == "=";
    assert OccursAt(line, "=", k);
    forall j | 0 <= j < k ensures !OccursAt(line, "=", j) {
      assert line[j..j + 1] == [line[j]];
      if j >= 7 {
        assert line[j] == sp[j - 7];
      }
    }
    IndexOfFirst(line, "=", k);
  }

  // ---------------------------------------------------------------------
  // findCellViewFiles

  /** `findCellViewFiles(methodName, document, workspaceFolder, plugin)`:
      nothing outside a cell class; otherwise the existing
      `<dir>/<Cell>/<method_name>.php` files of the cell template directories. */
  function CellViewFiles(fs: Node, root: string, methodName: string, doc: Document, plugin: Option<string>): (r: seq<FileInfo>)
    ensures ExtractClassInfo(doc.text, "Cell").None? ==> r == []
  {
    match ExtractClassInfo(doc.text, "Cell")
    case None => []
    case Some(ci) =>
      var searchPaths := SearchPaths(root, Cell, plugin, None, PluginFolders(fs, root));
      InfosOf(Found(fs, Under(searchPaths, ci.name), Underscore(methodName), [".php"]), root)
  }

  /** In a cell class, the view files are the existing files named after
      the underscored method, below the cell's folder in a cell template directory. */
  lemma CellViewFilesFound(fs: Node, root: string, methodName: string, doc: Document, plugin: Option<string>, p: string)
    requires ExtractClassInfo(doc.text, "Cell").Some?
    ensures var dirs := SearchPaths(root, Cell, plugin, None, PluginFolders(fs, root));
      var cell := ExtractClassInfo(doc.text, "Cell").value.name;
      p in Paths(CellViewFiles(fs, root, methodName, doc, plugin)) <==>
      Exists(fs, p) &&
      exists i :: 0 <= i < |dirs| && p == JoinPath(JoinPath(dirs[i], cell), Underscore(methodName) + ".php")
  {
    var dirs := SearchPaths(root, Cell, plugin, None, PluginFolders(fs, root));
    var cell := ExtractClassInfo(doc.text, "Cell").value.name;
    FoundMember(fs, Under(dirs, cell), Underscore(methodName), [".php"], p);
  }

  method FindCellViewFiles(fs: Node, root: string, methodName: string, doc: Document, plugin: Option<string>)
    returns (r: seq<FileInfo>)
    ensures r == CellViewFiles(fs, root, methodName, doc, plugin)
  {
    var cellInfo := ExtractClassInfo(doc.text, "Cell");
    if cellInfo.None? {
      return [];
    }
    var viewFileName := Underscore(methodName);
    var searchPaths := ConstructSearchPaths(fs, root, Cell, plugin, None);
    var viewFiles := SearchFiles(fs, Under(searchPaths, cellInfo.value.name), viewFileName, [".php"]);
    r := InfosOf(viewFiles, root);
  }

  // ---------------------------------------------------------------------
  // getFilePaths

  /** The entries of `SEARCH_PATTERNS`. */
  datatype Pattern = Render | Method | ElementCall | ElementArray | CellCall | ScriptHelper | ScriptTag | CssHelper | CssTag | SetTemplate

  /** The table order, which is the order the patterns are searched in. */
  const SearchPatterns: seq<Pattern> := [Render, Method, ElementCall, ElementArray, CellCall, ScriptHelper, ScriptTag, CssHelper, CssTag, SetTemplate]

  /** What the lookups read: the tree, the workspace root, the two namespace
      maps (`pluginUtils`' and `fileUtils`' cache) and the four indexes. */
  datatype Workspace = Workspace(fs: Node, root: string, pluginNs: Option<NsMap>, nsCache: Option<NsMap>,
                                 elementMap: Index, cellMap: Index, jsMap: Index, cssMap: Index)

  ghost predicate WorkspaceValid(w: Workspace) {
    Valid(w.elementMap) && (w.nsCache.Some? ==> Valid(w.nsCache.value))
  }

  predicate IsViewFile(fileName: string) {
    Contains(fileName, "templates") || Contains(fileName, "Template")
  }

  predicate IsCellFile(fileName: string) {
    Contains(fileName, "Cell.php")
  }

  predicate IsMailerFile(fileName: string) {
    Contains(fileName, "Mailer")
  }

  /** The script map for the script patterns, the stylesheet map otherwise. */
  function AssetIndexOf(w: Workspace, p: Pattern): Index {
    if p == ScriptHelper || p == ScriptTag then w.jsMap else w.cssMap
  }

  /** The `switch` of `getFilePaths`: the files one capture of one pattern leads to. */
  function MatchFiles(w: Workspace, doc: Document, currentPlugin: Option<string>, p: Pattern, searchPath: string): (r: seq<FileInfo>)
    requires WorkspaceValid(w)
  {
    match p
    case ElementCall | ElementArray => ElementFiles(w.elementMap, w.nsCache, w.root, searchPath, Some(doc))
    case CellCall => CellFiles(w.fs, w.pluginNs, w.nsCache, w.cellMap, w.root, searchPath, currentPlugin, Some(doc))
    case Method =>
      if IsCellFile(doc.path) then CellViewFiles(w.fs, w.root, searchPath, doc, currentPlugin)
      else TemplateFiles(w.fs, w.pluginNs, w.root, searchPath, ForController, doc)
    case ScriptHelper | ScriptTag | CssHelper | CssTag => AssetFiles(AssetIndexOf(w, p), w.root, searchPath, currentPlugin)
    case SetTemplate => if IsMailerFile(doc.path) then EmailFiles(w.fs, w.root, searchPath, currentPlugin) else []
    case Render => TemplateFiles(w.fs, w.pluginNs, w.root, searchPath, if IsViewFile(doc.path) then ForTemplate else ForController, doc)
  }

  /** `setTemplate` outside a mailer and `render` inside a template find nothing. */
  lemma MatchFilesNothing(w: Workspace, doc: Document, currentPlugin: Option<string>, p: Pattern, searchPath: string)
    requires WorkspaceValid(w)
    ensures p == SetTemplate && !IsMailerFile(doc.path) ==> MatchFiles(w, doc, currentPlugin, p, searchPath) == []
    ensures p == Render && IsViewFile(doc.path) ==> MatchFiles(w, doc, currentPlugin, p, searchPath) == []
  {
    if p == Render && IsViewFile(doc.path) {
      TemplateTypeFindsNothing(w.fs, w.pluginNs, w.root, searchPath, doc);
    }
  }

  /** `xs.flatMap(f)`, for lists of files. */
  function ConcatAll<T>(xs: seq<T>, f: T -> seq<FileInfo>): seq<FileInfo>
    decreases |xs|
  {
    if xs == [] then []
    else
      var last := |xs| - 1;
      ConcatAll(xs[..last], f) + f(xs[last])
  }

  lemma ConcatAllSnoc<T>(xs: seq<T>, f: T -> seq<FileInfo>, j: nat)
    requires j < |xs|
    ensures ConcatAll(xs[..j + 1], f) == ConcatAll(xs[..j], f) + f(xs[j])
  {
    assert xs[..j + 1][..j] == xs[..j];
  }

  lemma {:induction false} ConcatAllMember<T>(xs: seq<T>, f: T -> seq<FileInfo>, p: string)
    ensures p in Paths(ConcatAll(xs, f)) <==> exists j :: 0 <= j < |xs| && p in Paths(f(xs[j]))
    decreases |xs|
  {
    if xs != [] {
      var last := |xs| - 1;
      ConcatAllMember(xs[..last], f, p);
      assert forall j :: 0 <= j < last ==> xs[..last][j] == xs[j];
      PathsConcat(ConcatAll(xs[..last], f), f(xs[last]));
    }
  }

  lemma PathsConcat(a: seq<FileInfo>, b: seq<FileInfo>)
    ensures Paths(a + b) == Paths(a) + Paths(b)
  {
  }

  /** The lookup one pattern sends its captures to. */
  function Dispatcher(w: Workspace, doc: Document, currentPlugin: Option<string>, p: Pattern): string -> seq<FileInfo>
    requires WorkspaceValid(w)
  {
    s => MatchFiles(w, doc, currentPlugin, p, s)
  }

  lemma DispatcherAt(w: Workspace, doc: Document, currentPlugin: Option<string>, p: Pattern, s: string)
    requires WorkspaceValid(w)
    ensures Dispatcher(w, doc, currentPlugin, p)(s) == MatchFiles(w, doc, currentPlugin, p, s)
  {
  }

  /** All files the captures of one pattern lead to, in capture order. */
  function PatternFiles(w: Workspace, doc: Document, currentPlugin: Option<string>, captures: Pattern -> seq<string>): Pattern -> seq<FileInfo>
    requires WorkspaceValid(w)
  {
    p => ConcatAll(captures(p), Dispatcher(w, doc, currentPlugin, p))
  }

  /** `getFilePaths` past the workspace and autoloader steps: every match
      dispatched, then de-duplicated and sorted. */
  function FilePaths(w: Workspace, doc: Document, currentPlugin: Option<string>, captures: Pattern -> seq<string>): (r: seq<FileInfo>)
    requires WorkspaceValid(w)
    ensures SortedBy(r, ShowPath) && NoDuplicates(Paths(r))
  {
    RemoveDuplicatesAndSort(ConcatAll(SearchPatterns, PatternFiles(w, doc, currentPlugin, captures)))
  }

  /** A path is in the result exactly when some capture of some pattern leads to it. */
  lemma FilePathsMember(w: Workspace, doc: Document, currentPlugin: Option<string>, captures: Pattern -> seq<string>, f: string)
    requires WorkspaceValid(w)
    ensures f in Paths(FilePaths(w, doc, currentPlugin, captures)) <==>
      exists i, j :: 0 <= i < |SearchPatterns| && 0 <= j < |captures(SearchPatterns[i])| &&
        f in Paths(MatchFiles(w, doc, currentPlugin, SearchPatterns[i], captures(SearchPatterns[i])[j]))
  {
    var pf := PatternFiles(w, doc, currentPlugin, captures);
    ConcatAllMember(SearchPatterns, pf, f);
    forall i | 0 <= i < |SearchPatterns| {
      ConcatAllMember(captures(SearchPatterns[i]), Dispatcher(w, doc, currentPlugin, SearchPatterns[i]), f);
    }
  }

  /** The namespace cache after `parseAutoloadPsr4(workspaceFolder)` without a refresh. */
  function CacheAfterLoad(cache: Option<NsMap>, root: string, file: AutoloadFile): Option<NsMap> {
    if cache.Some? then cache
    else
      match AutoloadBody(file)
      case None => None
      case Some(body) => Some(NamespaceEntries(root, Entries(body)))
  }

  /** The map `parseAutoloadPsr4` hands back, given the cache it leaves. */
  function Loaded(cache: Option<NsMap>): NsMap {
    if cache.Some? then cache.value else Empty()
  }

  /** One match of `getFilePaths`' loop sent to its lookup. */
  method FindForPattern(resolver: Resolver, registry: PluginRegistry, elements: ElementMapper.ElementIndex,
                        cells: CellMapper.CellIndex, assets: AssetMapper.AssetIndex, fs: Node, root: string,
                        doc: Document, currentPlugin: Option<string>, p: Pattern, searchPath: string, ghost w: Workspace)
    returns (found: seq<FileInfo>)
    requires resolver.CacheValid() && Valid(elements.elementMap)
    requires w == Workspace(fs, root, registry.namespaceMap, resolver.namespaceMap, elements.elementMap,
                            cells.cellMap, assets.jsMap, assets.cssMap)
    ensures found == MatchFiles(w, doc, currentPlugin, p, searchPath)
  {
    assert WorkspaceValid(w);
    match p
    case ElementCall | ElementArray =>
      found := resolver.FindElementFiles(elements, root, searchPath, Some(doc));
      MatchElements(w, doc, currentPlugin, p, searchPath);
    case CellCall =>
      found := resolver.FindCellFiles(fs, registry, cells, root, searchPath, currentPlugin, Some(doc));
      MatchCells(w, doc, currentPlugin, p, searchPath);
    case Method =>
      if IsCellFile(doc.path) {
        found := FindCellViewFiles(fs, root, searchPath, doc, currentPlugin);
      } else {
        found := FindTemplateFiles(fs, registry, root, searchPath, ForController, doc);
      }
      MatchMethod(w, doc, currentPlugin, p, searchPath);
    case ScriptHelper | ScriptTag =>
      found := FindJsFiles(assets, root, searchPath, currentPlugin);
      MatchAssets(w, doc, currentPlugin, p, searchPath);
    case CssHelper | CssTag =>
      found := FindCssFiles(assets, root, searchPath, currentPlugin);
      MatchAssets(w, doc, currentPlugin, p, searchPath);
    case SetTemplate =>
      found := [];
      if IsMailerFile(doc.path) {
        found := FindEmailTemplateFiles(fs, root, searchPath, currentPlugin);
      }
      MatchEmails(w, doc, currentPlugin, p, searchPath);
    case Render =>
      found := FindTemplateFiles(fs, registry, root, searchPath, if IsViewFile(doc.path) then ForTemplate else ForController, doc);
      MatchRender(w, doc, currentPlugin, p, searchPath);
  }

  // One lemma per branch of the `switch`, each in a context of its own.

  lemma MatchElements(w: Workspace, doc: Document, currentPlugin: Option<string>, p: Pattern, s: string)
    requires WorkspaceValid(w) && (p == ElementCall || p == ElementArray)
    ensures MatchFiles(w, doc, currentPlugin, p, s) == ElementFiles(w.elementMap, w.nsCache, w.root, s, Some(doc))
  {
    if p == ElementCall {
    } else {
      assert p == ElementArray;
    }
  }

  lemma MatchCells(w: Workspace, doc: Document, currentPlugin: Option<string>, p: Pattern, s: string)
    requires WorkspaceValid(w) && p == CellCall
    ensures MatchFiles(w, doc, currentPlugin, p, s) == CellFiles(w.fs, w.pluginNs, w.nsCache, w.cellMap, w.root, s, currentPlugin, Some(doc))
  {
  }

  lemma MatchMethod(w: Workspace, doc: Document, currentPlugin: Option<string>, p: Pattern, s: string)
    requires WorkspaceValid(w) && p == Method
    ensures MatchFiles(w, doc, currentPlugin, p, s) ==
      if IsCellFile(doc.path) then CellViewFiles(w.fs, w.root, s, doc, currentPlugin)
      else TemplateFiles(w.fs, w.pluginNs, w.root, s, ForController, doc)
  {
  }

  lemma MatchAssets(w: Workspace, doc: Document, currentPlugin: Option<string>, p: Pattern, s: string)
    requires WorkspaceValid(w) && (p == ScriptHelper || p == ScriptTag || p == CssHelper || p == CssTag)
    ensures MatchFiles(w, doc, currentPlugin, p, s) == AssetFiles(AssetIndexOf(w, p), w.root, s, currentPlugin)
  {
  }

  lemma MatchEmails(w: Workspace, doc: Document, currentPlugin: Option<string>, p: Pattern, s: string)
    requires WorkspaceValid(w) && p == SetTemplate
    ensures MatchFiles(w, doc, currentPlugin, p, s) ==
      if IsMailerFile(doc.path) then EmailFiles(w.fs, w.root, s, currentPlugin) else []
  {
  }

  lemma MatchRender(w: Workspace, doc: Document, currentPlugin: Option<string>, p: Pattern, s: string)
    requires WorkspaceValid(w) && p == Render
    ensures MatchFiles(w, doc, currentPlugin, p, s) ==
      TemplateFiles(w.fs, w.pluginNs, w.root, s, if IsViewFile(doc.path) then ForTemplate else ForController, doc)
  {
  }

  /** `getFilePaths(text, document)`. The matches of each pattern in the
      document's text are `captures(pattern)`; `assetCapture` is the capture
      of the `files[] = ...` pattern on the text when the document is
      `asset_compress.ini`; `workspaceFolder` is `None` outside a workspace. */
  method GetFilePaths(resolver: Resolver, registry: PluginRegistry, elements: ElementMapper.ElementIndex,
                      cells: CellMapper.CellIndex, assets: AssetMapper.AssetIndex, fs: Node,
                      workspaceFolder: Option<string>, autoload: AutoloadFile, doc: Document,
                      captures: Pattern -> seq<string>, assetCapture: Option<string>)
    returns (r: seq<FileInfo>)
    requires resolver.CacheValid() && Valid(elements.elementMap)
    modifies resolver, registry
    ensures resolver.CacheValid()
    ensures workspaceFolder.None? ==> r == [] && unchanged(resolver) && unchanged(registry)
    ensures workspaceFolder.Some? ==>
      resolver.namespaceMap == CacheAfterLoad(old(resolver.namespaceMap), workspaceFolder.value, autoload) &&
      registry.namespaceMap == Some(Loaded(resolver.namespaceMap))
    ensures workspaceFolder.Some? && Basename(doc.path) == "asset_compress.ini" ==>
      r == AssetCompressFiles(registry.namespaceMap, workspaceFolder.value, assetCapture)
    ensures workspaceFolder.Some? && Basename(doc.path) != "asset_compress.ini" ==>
      r == FilePaths(Workspace(fs, workspaceFolder.value, registry.namespaceMap, resolver.namespaceMap, elements.elementMap,
                               cells.cellMap, assets.jsMap, assets.cssMap),
                     doc, PluginFromFilePath(resolver.namespaceMap, doc.path), captures)
  {
    if workspaceFolder.None? {
      return [];
    }
    var root := workspaceFolder.value;
    var pluginMap := resolver.ParseAutoloadPsr4(root, autoload, false);
    registry.SetNamespaceMap(pluginMap);
    if Basename(doc.path) == "asset_compress.ini" {
      r := AssetCompressFiles(registry.namespaceMap, root, assetCapture);
      return;
    }
    r := FindMatchingFiles(resolver, registry, elements, cells, assets, fs, root, doc, captures);
  }

  /** The pattern search of `getFilePaths`, from the file's plugin to the
      sorted, de-duplicated matches. */
  method FindMatchingFiles(resolver: Resolver, registry: PluginRegistry, elements: ElementMapper.ElementIndex,
                           cells: CellMapper.CellIndex, assets: AssetMapper.AssetIndex, fs: Node, root: string,
                           doc: Document, captures: Pattern -> seq<string>)
    returns (r: seq<FileInfo>)
    requires resolver.CacheValid() && Valid(elements.elementMap)
    ensures r == FilePaths(Workspace(fs, root, registry.namespaceMap, resolver.namespaceMap, elements.elementMap,
                                     cells.cellMap, assets.jsMap, assets.cssMap),
                           doc, PluginFromFilePath(resolver.namespaceMap, doc.path), captures)
  {
    var currentPlugin := resolver.GetPluginFromFilePath(doc.path);
    var matchingFiles := CollectMatches(resolver, registry, elements, cells, assets, fs, root, doc, currentPlugin, captures);
    r := RemoveDuplicatesAndSort(matchingFiles);
  }

  /** The two loops of `getFilePaths`: every pattern in table order, every
      capture of it in order, each sent to its lookup. */
  method CollectMatches(resolver: Resolver, registry: PluginRegistry, elements: ElementMapper.ElementIndex,
                        cells: CellMapper.CellIndex, assets: AssetMapper.AssetIndex, fs: Node, root: string,
                        doc: Document, currentPlugin: Option<string>, captures: Pattern -> seq<string>)
    returns (matchingFiles: seq<FileInfo>)
    requires resolver.CacheValid() && Valid(elements.elementMap)
    ensures var w := Workspace(fs, root, registry.namespaceMap, resolver.namespaceMap, elements.elementMap,
                               cells.cellMap, assets.jsMap, assets.cssMap);
      matchingFiles == ConcatAll(SearchPatterns, PatternFiles(w, doc, currentPlugin, captures))
  {
    ghost var w := Workspace(fs, root, registry.namespaceMap, resolver.namespaceMap, elements.elementMap,
                             cells.cellMap, assets.jsMap, assets.cssMap);
    ghost var pf := PatternFiles(w, doc, currentPlugin, captures);
    matchingFiles := [];
    var i := 0;
    while i < |SearchPatterns|
      invariant 0 <= i <= |SearchPatterns|
      invariant matchingFiles == ConcatAll(SearchPatterns[..i], pf)
    {
      var p := SearchPatterns[i];
      var found := CollectPattern(resolver, registry, elements, cells, assets, fs, root, doc, currentPlugin, p, captures(p), w);
      assert pf(p) == found;
      ConcatAllSnoc(SearchPatterns, pf, i);
      matchingFiles := matchingFiles + found;
      i := i + 1;
    }
    assert SearchPatterns[..|SearchPatterns|] == SearchPatterns;
  }

  /** The inner loop of `getFilePaths`: every match of one pattern. */
  method CollectPattern(resolver: Resolver, registry: PluginRegistry, elements: ElementMapper.ElementIndex,
                        cells: CellMapper.CellIndex, assets: AssetMapper.AssetIndex, fs: Node, root: string,
                        doc: Document, currentPlugin: Option<string>, p: Pattern, caps: seq<string>, ghost w: Workspace)
    returns (found: seq<FileInfo>)
    requires resolver.CacheValid() && Valid(elements.elementMap)
    requires w == Workspace(fs, root, registry.namespaceMap, resolver.namespaceMap, elements.elementMap,
                            cells.cellMap, assets.jsMap, assets.cssMap)
    ensures found == ConcatAll(caps, Dispatcher(w, doc, currentPlugin, p))
  {
    ghost var d := Dispatcher(w, doc, currentPlugin, p);
    found := [];
    var j := 0;
    while j < |caps|
      invariant 0 <= j <= |caps|
      invariant found == ConcatAll(caps[..j], d)
    {
      var files := FindForPattern(resolver, registry, elements, cells, assets, fs, root, doc, currentPlugin, p, caps[j], w);
      DispatcherAt(w, doc, currentPlugin, p, caps[j]);
      ConcatAllSnoc(caps, d, j);
      found := found + files;
      j := j + 1;
    }
    assert caps[..|caps|] == caps;
  }
}
