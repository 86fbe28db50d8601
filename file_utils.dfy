/** The resolvers of `fileUtils`: the PSR-4 namespace map read from
    Composer's autoloader (cached by the module), the plugin a file belongs
    to, the search for files below candidate directories, and the lookups
    that turn an element, template, cell, script, stylesheet or e-mail
    template reference into the files it names. */
module FileUtils {
  import opened Text
  import opened Dicts
  import opened NodePath
  import opened FileSystem
  import opened PluginUtils
  import opened StringUtils
  import opened PathUtils
  import opened Autoload
  import ElementMapper
  import CellMapper
  import AssetMapper

  // ---------------------------------------------------------------------
  // searchFiles

  /** What the inner loop of `searchFiles` pushes for one base: every
      `path.join(base, fileName + ext)` that is `present`, in extension order. */
  function FoundInBy(present: string -> bool, base: string, fileName: string, exts: seq<string>): seq<string>
    decreases |exts|
  {
    if exts == [] then []
    else
      var last := |exts| - 1;
      var p := JoinPath(base, fileName + exts[last]);
      FoundInBy(present, base, fileName, exts[..last]) + (if present(p) then [p] else [])
  }

  /** `FoundInBy` for each base, in base order. */
  function FoundBy(present: string -> bool, bases: seq<string>, fileName: string, exts: seq<string>): seq<string>
    decreases |bases|
  {
    if bases == [] then []
    else
      var last := |bases| - 1;
      FoundBy(present, bases[..last], fileName, exts) + FoundInBy(present, bases[last], fileName, exts)
  }

  lemma {:induction false} FoundInBySound(present: string -> bool, base: string, fileName: string, exts: seq<string>, p: string)
    requires p in FoundInBy(present, base, fileName, exts)
    ensures present(p) && exists j :: 0 <= j < |exts| && p == JoinPath(base, fileName + exts[j])
    decreases |exts|
  {
    var last := |exts| - 1;
    if p in FoundInBy(present, base, fileName, exts[..last]) {
      FoundInBySound(present, base, fileName, exts[..last], p);
      var j :| 0 <= j < last && p == JoinPath(base, fileName + exts[..last][j]);
      assert exts[..last][j] == exts[j];
    }
  }

  /** Every present candidate under a base is found. */
  lemma {:induction false} FoundInByComplete(present: string -> bool, base: string, fileName: string, exts: seq<string>, j: nat)
    requires j < |exts| && present(JoinPath(base, fileName + exts[j]))
    ensures JoinPath(base, fileName + exts[j]) in FoundInBy(present, base, fileName, exts)
    decreases |exts|
  {
    var last := |exts| - 1;
    if j < last {
      assert exts[..last][j] == exts[j];
      FoundInByComplete(present, base, fileName, exts[..last], j);
    }
  }

  lemma {:induction false} FoundBySound(present: string -> bool, bases: seq<string>, fileName: string, exts: seq<string>, p: string)
    requires p in FoundBy(present, bases, fileName, exts)
    ensures present(p) && exists i, j :: 0 <= i < |bases| && 0 <= j < |exts| && p == JoinPath(bases[i], fileName + exts[j])
    decreases |bases|
  {
    var last := |bases| - 1;
    var init := bases[..last];
    if p in FoundBy(present, init, fileName, exts) {
      FoundBySound(present, init, fileName, exts, p);
      var i, j :| 0 <= i < |init| && 0 <= j < |exts| && p == JoinPath(init[i], fileName + exts[j]);
      assert init[i] == bases[i];
    } else {
      FoundInBySound(present, bases[last], fileName, exts, p);
    }
  }

  lemma {:induction false} FoundByComplete(present: string -> bool, bases: seq<string>, fileName: string, exts: seq<string>, i: nat, j: nat)
    requires i < |bases| && j < |exts| && present(JoinPath(bases[i], fileName + exts[j]))
    ensures JoinPath(bases[i], fileName + exts[j]) in FoundBy(present, bases, fileName, exts)
    decreases |bases|
  {
    var last := |bases| - 1;
    var init := bases[..last];
    var p := JoinPath(bases[i], fileName + exts[j]);
    if i < last {
      assert init[i] == bases[i];
      FoundByComplete(present, init, fileName, exts, i, j);
      FoundByEarlier(present, bases, fileName, exts, p);
    } else {
      assert i == last;
      FoundInByComplete(present, bases[last], fileName, exts, j);
      FoundByLast(present, bases, fileName, exts, p);
    }
  }

  /** What the earlier bases find, the whole search finds. */
  lemma FoundByEarlier(present: string -> bool, bases: seq<string>, fileName: string, exts: seq<string>, p: string)
    requires bases != [] && p in FoundBy(present, bases[..|bases| - 1], fileName, exts)
    ensures p in FoundBy(present, bases, fileName, exts)
  {
  }

  /** What the last base finds, the whole search finds. */
  lemma FoundByLast(present: string -> bool, bases: seq<string>, fileName: string, exts: seq<string>, p: string)
    requires bases != [] && p in FoundInBy(present, bases[|bases| - 1], fileName, exts)
    ensures p in FoundBy(present, bases, fileName, exts)
  {
  }

  /** `fs.existsSync` as a predicate on paths. */
  function Present(fs: Node): string -> bool {
    p => Exists(fs, p)
  }

  function FoundIn(fs: Node, base: string, fileName: string, exts: seq<string>): seq<string> {
    FoundInBy(Present(fs), base, fileName, exts)
  }

  /** What `searchFiles` returns. */
  function Found(fs: Node, bases: seq<string>, fileName: string, exts: seq<string>): seq<string> {
    FoundBy(Present(fs), bases, fileName, exts)
  }

  /** `searchFiles` returns exactly the existing base/name/extension combinations. */
  lemma FoundMember(fs: Node, bases: seq<string>, fileName: string, exts: seq<string>, p: string)
    ensures p in Found(fs, bases, fileName, exts) <==>
      Exists(fs, p) && exists i, j :: 0 <= i < |bases| && 0 <= j < |exts| && p == JoinPath(bases[i], fileName + exts[j])
  {
    if p in Found(fs, bases, fileName, exts) {
      FoundBySound(Present(fs), bases, fileName, exts, p);
    }
    if Exists(fs, p) && exists i, j :: 0 <= i < |bases| && 0 <= j < |exts| && p == JoinPath(bases[i], fileName + exts[j]) {
      var i, j :| 0 <= i < |bases| && 0 <= j < |exts| && p == JoinPath(bases[i], fileName + exts[j]);
      FoundByComplete(Present(fs), bases, fileName, exts, i, j);
    }
  }

  /** `searchFiles(basePaths, fileName, extensions)`. */
  method SearchFiles(fs: Node, basePaths: seq<string>, fileName: string, extensions: seq<string>)
    returns (foundFiles: seq<string>)
    ensures foundFiles == Found(fs, basePaths, fileName, extensions)
  {
    foundFiles := [];
    var i := 0;
    while i < |basePaths|
      invariant 0 <= i <= |basePaths|
      invariant foundFiles == FoundBy(Present(fs), basePaths[..i], fileName, extensions)
    {
      var more := SearchBase(fs, basePaths[i], fileName, extensions);
      foundFiles := foundFiles + more;
      assert basePaths[..i + 1][..i] == basePaths[..i];
      i := i + 1;
    }
    assert basePaths[..|basePaths|] == basePaths;
  }

  /** Trying one more extension under a base. */
  lemma FoundInStep(fs: Node, base: string, fileName: string, exts: seq<string>, j: nat)
    requires j < |exts|
    ensures var p := JoinPath(base, fileName + exts[j]);
      FoundInBy(Present(fs), base, fileName, exts[..j + 1])
      == FoundInBy(Present(fs), base, fileName, exts[..j]) + (if Exists(fs, p) then [p] else [])
  {
    assert exts[..j + 1][..j] == exts[..j];
    assert Present(fs)(JoinPath(base, fileName + exts[j])) == Exists(fs, JoinPath(base, fileName + exts[j]));
  }

  /** The inner loop of `searchFiles`: the extensions tried under one base. */
  method SearchBase(fs: Node, basePath: string, fileName: string, extensions: seq<string>)
    returns (found: seq<string>)
    ensures found == FoundIn(fs, basePath, fileName, extensions)
  {
    found := [];
    var j := 0;
    while j < |extensions|
      invariant 0 <= j <= |extensions|
      invariant found == FoundInBy(Present(fs), basePath, fileName, extensions[..j])
    {
      var fullPath := JoinPath(basePath, fileName + extensions[j]);
      FoundInStep(fs, basePath, fileName, extensions, j);
      if Exists(fs, fullPath) {
        found := found + [fullPath];
      }
      j := j + 1;
    }
    assert extensions[..|extensions|] == extensions;
  }

  // ---------------------------------------------------------------------
  // removeDuplicatesAndSort

  /** The `fsPath` of every file, in order. */
  function Paths(files: seq<FileInfo>): (r: seq<string>)
    ensures |r| == |files|
    ensures forall i :: 0 <= i < |files| ==> r[i] == files[i].fsPath
  {
    seq(|files|, i requires 0 <= i < |files| => files[i].fsPath)
  }

  function ShowPath(f: FileInfo): string {
    f.showPath
  }

  /** The index of the last file with path `p`. */
  function LastIndex(files: seq<FileInfo>, p: string): (r: Option<nat>)
    ensures r.Some? ==> r.value < |files| && files[r.value].fsPath == p
    ensures r.Some? ==> forall j :: r.value < j < |files| ==> files[j].fsPath != p
    ensures r.None? <==> p !in Paths(files)
    decreases |files|
  {
    if files == [] then None
    else
      var last := |files| - 1;
      if files[last].fsPath == p then Some(last)
      else
        assert Paths(files) == Paths(files[..last]) + [files[last].fsPath];
        LastIndex(files[..last], p)
  }

  /** `f` is the last file given for its path. */
  predicate LastWithPath(files: seq<FileInfo>, f: FileInfo) {
    var k := LastIndex(files, f.fsPath);
    k.Some? && files[k.value] == f
  }

  /** `uniqueFiles.set(file.fileUri.fsPath, file)` for each file, in order. */
  function ByPath(files: seq<FileInfo>): (d: Dict<FileInfo>)
    ensures Valid(d)
    decreases |files|
  {
    if files == [] then Empty()
    else
      var last := |files| - 1;
      Put(ByPath(files[..last]), files[last].fsPath, files[last])
  }

  /** The map holds a path exactly when some file has it, and then the last such file. */
  lemma {:induction false} ByPathAt(files: seq<FileInfo>, p: string)
    ensures p in ByPath(files).entries <==> LastIndex(files, p).Some?
    ensures p in ByPath(files).entries ==> ByPath(files).entries[p] == files[LastIndex(files, p).value]
    decreases |files|
  {
    if files != [] {
      var last := |files| - 1;
      if files[last].fsPath != p {
        ByPathAt(files[..last], p);
      }
    }
  }

  /** Distinct paths stay distinct under a permutation without repeated files. */
  lemma PathsPermutation(vs: seq<FileInfo>, r: seq<FileInfo>)
    requires NoDuplicates(Paths(vs)) && NoDuplicates(r) && multiset(r) == multiset(vs)
    ensures NoDuplicates(Paths(r))
  {
    forall i, j | 0 <= i < j < |r| ensures r[i].fsPath != r[j].fsPath {
      assert r[i] in multiset(vs) && r[j] in multiset(vs);
      var a :| 0 <= a < |vs| && vs[a] == r[i];
      var b :| 0 <= b < |vs| && vs[b] == r[j];
      assert Paths(vs)[a] == r[i].fsPath && Paths(vs)[b] == r[j].fsPath;
    }
  }

  /** The kept files carry the map's keys, in order. */
  lemma ValuesPaths(files: seq<FileInfo>)
    ensures Paths(Values(ByPath(files))) == ByPath(files).keys
  {
    var d := ByPath(files);
    forall i | 0 <= i < |d.keys| ensures Paths(Values(d))[i] == d.keys[i] {
      ByPathAt(files, d.keys[i]);
    }
  }

  /** The kept files are the last file given for each path. */
  lemma ValuesKept(files: seq<FileInfo>, f: FileInfo)
    ensures f in Values(ByPath(files)) <==> LastWithPath(files, f)
  {
    var d := ByPath(files);
    var vs := Values(d);
    ByPathAt(files, f.fsPath);
    if f in vs {
      var k :| 0 <= k < |vs| && vs[k] == f;
      ByPathAt(files, d.keys[k]);
    }
    if LastWithPath(files, f) {
      var k :| 0 <= k < |d.keys| && d.keys[k] == f.fsPath;
      assert vs[k] == f;
    }
  }

  /** Every path given keeps a file. */
  lemma ValuesCover(files: seq<FileInfo>, p: string)
    ensures p in Paths(Values(ByPath(files))) <==> p in Paths(files)
  {
    ValuesPaths(files);
    ByPathAt(files, p);
  }

  /** A permutation has the same elements and the same paths. */
  lemma PermutationMembers(vs: seq<FileInfo>, r: seq<FileInfo>)
    requires multiset(r) == multiset(vs)
    ensures forall f :: f in r <==> f in vs
    ensures forall p :: p in Paths(r) <==> p in Paths(vs)
  {
    forall f ensures f in r <==> f in vs {
      assert f in r <==> f in multiset(r);
      assert f in vs <==> f in multiset(vs);
    }
    forall p ensures p in Paths(r) <==> p in Paths(vs) {
      if p in Paths(r) {
        var k :| 0 <= k < |r| && Paths(r)[k] == p;
        assert r[k] in vs;
        var m :| 0 <= m < |vs| && vs[m] == r[k];
        assert Paths(vs)[m] == p;
      }
      if p in Paths(vs) {
        var m :| 0 <= m < |vs| && Paths(vs)[m] == p;
        assert vs[m] in r;
        var k :| 0 <= k < |r| && r[k] == vs[m];
        assert Paths(r)[k] == p;
      }
    }
  }

  /** `removeDuplicatesAndSort(files)`: one file per path (the last one
      given for it), ordered by the path shown to the user. */
  function RemoveDuplicatesAndSort(files: seq<FileInfo>): (r: seq<FileInfo>)
    ensures SortedBy(r, ShowPath)
    ensures NoDuplicates(Paths(r))
    ensures forall f :: f in r <==> LastWithPath(files, f)
    ensures forall p :: p in Paths(r) <==> p in Paths(files)
  {
    var vs := Values(ByPath(files));
    var r := SortBy(vs, ShowPath);
    ValuesPaths(files);
    assert NoDuplicates(vs) by {
      forall i, j | 0 <= i < j < |vs| ensures vs[i] != vs[j] {
        assert Paths(vs)[i] != Paths(vs)[j];
      }
    }
    SortByNoDuplicates(vs, ShowPath);
    PathsPermutation(vs, r);
    PermutationMembers(vs, r);
    forall f ensures f in r <==> LastWithPath(files, f) {
      ValuesKept(files, f);
    }
    forall p ensures p in Paths(r) <==> p in Paths(files) {
      ValuesCover(files, p);
    }
    r
  }

  /** `paths.map(file => createFileInfo(file, workspaceFolder))`. */
  function InfosOf(paths: seq<string>, root: string): (r: seq<FileInfo>)
    ensures |r| == |paths| && Paths(r) == paths
    ensures forall i :: 0 <= i < |paths| ==> r[i] == CreateFileInfo(paths[i], root)
  {
    seq(|paths|, i requires 0 <= i < |paths| => CreateFileInfo(paths[i], root))
  }

  /** Resolving a list of paths keeps exactly those paths, each once. */
  lemma InfosDeduplicated(paths: seq<string>, root: string, p: string)
    ensures p in Paths(RemoveDuplicatesAndSort(InfosOf(paths, root))) <==> p in paths
  {
  }

  // ---------------------------------------------------------------------
  // parseCellName

  /** The result of `parseCellName`. */
  datatype CellName = CellName(plugin: Option<string>, path: string, className: string, methodName: string)

  /** The length of the run of `\w` characters that starts `s`. */
  function WordRun(s: string): (n: nat)
    ensures n <= |s| && (forall k :: 0 <= k < n ==> IsWordChar(s[k]))
    ensures n < |s| ==> !IsWordChar(s[n])
  {
    if s != [] && IsWordChar(s[0]) then 1 + WordRun(s[1..]) else 0
  }

  /** `s.replace(/([A-Z])/g, '_$1')`. */
  function MarkCapitals(s: string): string {
    if s == [] then [] else (if IsUpper(s[0]) then ['_', s[0]] else [s[0]]) + MarkCapitals(s[1..])
  }

  /** Marking capitals and lower-casing the result is `underscore`. */
  lemma {:induction false} MarkCapitalsLower(s: string)
    ensures Lower(MarkCapitals(s)) == Underscore(s)
    decreases |s|
  {
    if s != [] {
      var head := if IsUpper(s[0]) then ['_', s[0]] else [s[0]];
      MarkCapitalsLower(s[1..]);
      LowerConcat(head, MarkCapitals(s[1..]));
      assert Lower(head) == if IsUpper(s[0]) then ['_', ToLowerChar(s[0])] else [s[0]];
    }
  }

  function ParseCellName(cellName: string): (r: CellName)
    ensures |Split(cellName, "::")| != 2 ==> r == CellName(None, cellName, cellName, "")
    ensures |Split(cellName, "::")| == 2 ==> r.methodName == Split(cellName, "::")[1]
  {
    var parts := Split(cellName, "::");
    if |parts| != 2 then CellName(None, cellName, cellName, "")
    else
      var classPath := ReplaceAll(parts[0], '\\', '/');
      var methodName := parts[1];
      var fileName := Lower(MarkCapitals(methodName));
      var fullPath := classPath + "/" + fileName;
      var w := WordRun(classPath);
      if 0 < w < |classPath| && classPath[w] == '.' then
        CellName(Some(classPath[..w]), fullPath[w + 1..], classPath[w + 1..], methodName)
      else
        CellName(None, fullPath, classPath, methodName)
  }

  lemma SplitColons(a: string, b: string)
    requires ':' !in a && ':' !in b
    ensures Split(a + "::" + b, "::") == [a, b]
  {
    var s := a + "::" + b;
    forall j | 0 <= j < |a| ensures !OccursAt(s, "::", j) {
      assert s[j] == a[j];
      if j + 2 <= |s| {
        assert s[j..j + 2][0] == s[j];
      }
    }
    assert s[|a|..|a| + 2] == "::";
    assert OccursAt(s, "::", |a|);
    assert IndexOf(s, "::") == Some(|a|);
    assert s[..|a|] == a && s[|a| + 2..] == b;
    forall j: nat | j + 2 <= |b| ensures !OccursAt(b, "::", j) {
      assert b[j..j + 2][0] == b[j];
    }
    assert IndexOf(b, "::").None?;
  }

  /** `Plugin.Class::method` names the plugin, the class (with `\` read as
      `/`) and the template `<class>/<method underscored>`. */
  lemma ParseCellNameQualified(plugin: string, cls: string, m: string)
    requires plugin != [] && forall k :: 0 <= k < |plugin| ==> IsWordChar(plugin[k])
    requires ':' !in cls && ':' !in m
    ensures var c := ReplaceAll(cls, '\\', '/');
      ParseCellName(plugin + "." + cls + "::" + m) == CellName(Some(plugin), c + "/" + Underscore(m), c, m)
  {
    var a := plugin + "." + cls;
    var c := ReplaceAll(cls, '\\', '/');
    QualifiedClassPath(plugin, cls);
    SplitColons(a, m);
    MarkCapitalsLower(m);
    var classPath := plugin + "." + c;
    assert WordRun(classPath) == |plugin| by {
      WordRunPrefix(plugin, "." + c);
      Assoc(plugin, ".", c);
    }
    FullPathTail(plugin, c, Underscore(m));
    ParseCellNameAt(plugin + "." + cls + "::" + m, a, m, |plugin|);
  }

  /** `ParseCellName` on a name that splits into a class path with a plugin prefix of length `w` and a method. */
  lemma ParseCellNameAt(cellName: string, a: string, m: string, w: nat)
    requires Split(cellName, "::") == [a, m]
    requires w == WordRun(ReplaceAll(a, '\\', '/')) && 0 < w < |ReplaceAll(a, '\\', '/')|
    requires ReplaceAll(a, '\\', '/')[w] == '.'
    ensures var classPath := ReplaceAll(a, '\\', '/');
      ParseCellName(cellName) ==
      CellName(Some(classPath[..w]), (classPath + "/" + Lower(MarkCapitals(m)))[w + 1..], classPath[w + 1..], m)
  {
  }

  /** With a word-character plugin prefix the split and the replacement see only the class. */
  lemma QualifiedClassPath(plugin: string, cls: string)
    requires forall k :: 0 <= k < |plugin| ==> IsWordChar(plugin[k])
    requires ':' !in cls
    ensures ':' !in plugin + "." + cls
    ensures ReplaceAll(plugin + "." + cls, '\\', '/') == plugin + "." + ReplaceAll(cls, '\\', '/')
  {
    var a := plugin + "." + cls;
    forall k | 0 <= k < |a| ensures a[k] != ':' {
      if k < |plugin| {
        assert a[k] == plugin[k];
      } else if k > |plugin| {
        assert a[k] == cls[k - |plugin| - 1];
      }
    }
  }

  lemma FullPathTail(plugin: string, c: string, file: string)
    ensures (plugin + "." + c + "/" + file)[|plugin| + 1..] == c + "/" + file
    ensures (plugin + "." + c)[..|plugin|] == plugin && (plugin + "." + c)[|plugin| + 1..] == c
    ensures (plugin + "." + c)[|plugin|] == '.' && |plugin| < |plugin + "." + c|
  {
  }

  /** The `\w` run of a word followed by a non-word character is the word. */
  lemma {:induction false} WordRunPrefix(w: string, rest: string)
    requires forall k :: 0 <= k < |w| ==> IsWordChar(w[k])
    requires rest != [] && !IsWordChar(rest[0])
    ensures WordRun(w + rest) == |w|
    decreases |w|
  {
    if w != [] {
      assert (w + rest)[1..] == w[1..] + rest;
      WordRunPrefix(w[1..], rest);
    } else {
      assert w + rest == rest;
    }
  }

  /** `Class::method` without a plugin prefix. */
  lemma ParseCellNameBare(cls: string, m: string)
    requires ':' !in cls && ':' !in m && '.' !in cls
    ensures var c := ReplaceAll(cls, '\\', '/');
      ParseCellName(cls + "::" + m) == CellName(None, c + "/" + Underscore(m), c, m)
  {
    SplitColons(cls, m);
    MarkCapitalsLower(m);
    var c := ReplaceAll(cls, '\\', '/');
    var w := WordRun(c);
    if w < |c| {
      assert c[w] != '.' by {
        assert c[w] == cls[w] || c[w] == '/';
      }
    }
  }

  /** A name without `::` is taken whole, with no method. */
  lemma ParseCellNameNoMethod(name: string)
    requires !Contains(name, "::")
    ensures ParseCellName(name) == CellName(None, name, name, "")
  {
    SplitWithout(name, "::");
  }

  // ---------------------------------------------------------------------
  // extractControllerInfo / extractCellInfo

  predicate IsNamespaceChar(c: char) {
    IsWordChar(c) || c == '\\'
  }

  /** The length of the run of `[\w\\]` characters that starts `s`. */
  function NamespaceRun(s: string): (n: nat)
    ensures n <= |s| && (forall k :: 0 <= k < n ==> IsNamespaceChar(s[k]))
    ensures n < |s| ==> !IsNamespaceChar(s[n])
  {
    if s != [] && IsNamespaceChar(s[0]) then 1 + NamespaceRun(s[1..]) else 0
  }

  /** `namespace\s+([\w\\]+)` matched at the start of `t`. */
  function NamespaceAt(t: string): (r: Option<string>)
    ensures r.Some? ==> r.value != [] && forall k :: 0 <= k < |r.value| ==> IsNamespaceChar(r.value[k])
  {
    if !StartsWith(t, "namespace") then None
    else
      var a := t[9..];
      var s := SpaceRun(a);
      if s == 0 then None
      else
        var b := a[s..];
        var n := NamespaceRun(b);
        if n == 0 then None else Some(b[..n])
  }

  /** The longest capture up to `w` after which `suffix` follows: the greedy
      `\w+` gives characters back until the literal matches. */
  function GiveBack(b: string, w: nat, suffix: string): (r: Option<string>)
    requires w <= |b|
    ensures r.Some? ==> r.value != [] && |r.value| <= w && StartsWith(b[|r.value|..], suffix) && r.value == b[..|r.value|]
    ensures r.Some? ==> forall k :: |r.value| < k <= w ==> !StartsWith(b[k..], suffix)
    ensures r.None? ==> forall k :: 0 < k <= w ==> !StartsWith(b[k..], suffix)
    decreases w
  {
    if w == 0 then None
    else if StartsWith(b[w..], suffix) then Some(b[..w])
    else GiveBack(b, w - 1, suffix)
  }

  /** `class\s+(\w+)<suffix>` matched at the start of `t`. */
  function ClassAt(t: string, suffix: string): (r: Option<string>)
    ensures r.Some? ==> r.value != [] && forall k :: 0 <= k < |r.value| ==> IsWordChar(r.value[k])
  {
    if !StartsWith(t, "class") then None
    else
      var a := t[5..];
      var s := SpaceRun(a);
      if s == 0 then None
      else
        var b := a[s..];
        GiveBack(b, WordRun(b), suffix)
  }

  /** The leftmost match of a pattern whose match at a position is `at`. */
  function Leftmost(text: string, i: nat, at: string -> Option<string>): Option<string>
    requires i <= |text|
    decreases |text| - i
  {
    match at(text[i..])
    case Some(c) => Some(c)
    case None => if i == |text| then None else Leftmost(text, i + 1, at)
  }

  function NamespaceCapture(text: string): Option<string> {
    Leftmost(text, 0, t => NamespaceAt(t))
  }

  function ClassCapture(text: string, suffix: string): Option<string> {
    Leftmost(text, 0, t => ClassAt(t, suffix))
  }

  /** `ControllerInfo` and `CellInfo`. */
  datatype ClassInfo = ClassInfo(name: string, prefix: string, suffix: string)

  /** The index of the first element equal to `x` (`parts.indexOf(x)`). */
  function Position(parts: seq<string>, x: string): (r: Option<nat>)
    ensures r.Some? ==> r.value < |parts| && parts[r.value] == x && x !in parts[..r.value]
    ensures r.None? ==> x !in parts
  {
    if parts == [] then None
    else if parts[0] == x then Some(0)
    else
      match Position(parts[1..], x)
      case None => None
      case Some(k) =>
        assert parts[..k + 1] == [parts[0]] + parts[1..][..k];
        Some(k + 1)
  }

  /** `extractControllerInfo` (marker `Controller`) and `extractCellInfo`
      (marker `Cell`) on the document text: the namespace is cut at its
      first segment equal to the marker. */
  function ExtractClassInfo(text: string, marker: string): (r: Option<ClassInfo>)
    ensures r.Some? <==> NamespaceCapture(text).Some? && ClassCapture(text, marker).Some?
    ensures r.Some? ==> r.value.name == ClassCapture(text, marker).value
  {
    match NamespaceCapture(text)
    case None => None
    case Some(ns) =>
      match ClassCapture(text, marker)
      case None => None
      case Some(name) =>
        var parts := Split(ns, "\\");
        match Position(parts, marker)
        case None => Some(ClassInfo(name, "", ""))
        case Some(k) => Some(ClassInfo(name, Join(parts[..k], "\\"), Join(parts[k + 1..], "\\")))
  }

  /** A namespace `pre\Marker\post` is split around its first `Marker` segment;
      without one both halves are empty. */
  lemma ClassInfoParts(text: string, marker: string, pre: seq<string>, post: seq<string>)
    requires ClassCapture(text, marker).Some?
    requires |pre| >= 1 && |post| >= 1 && marker !in pre
    requires forall k :: 0 <= k < |pre| ==> '\\' !in pre[k]
    requires forall k :: 0 <= k < |post| ==> '\\' !in post[k]
    requires '\\' !in marker
    requires NamespaceCapture(text) == Some(Join(pre + [marker] + post, "\\"))
    ensures ExtractClassInfo(text, marker) ==
      Some(ClassInfo(ClassCapture(text, marker).value, Join(pre, "\\"), Join(post, "\\")))
  {
    var parts := pre + [marker] + post;
    SplitJoin(parts, '\\');
    assert parts[|pre|] == marker;
    assert parts[..|pre|] == pre && parts[|pre| + 1..] == post;
    var k := Position(parts, marker).value;
    assert marker in parts[..|pre| + 1];
  }

  /** A namespace with no marker segment gives empty prefix and suffix. */
  lemma ClassInfoNoMarker(text: string, marker: string)
    requires ClassCapture(text, marker).Some? && NamespaceCapture(text).Some?
    requires marker !in Split(NamespaceCapture(text).value, "\\")
    ensures ExtractClassInfo(text, marker) == Some(ClassInfo(ClassCapture(text, marker).value, "", ""))
  {
  }

  // ---------------------------------------------------------------------
  // getPluginFromFilePath

  /** `s.slice(n)`. */
  function SliceFrom(s: string, n: nat): (r: string)
    ensures n <= |s| ==> r == s[n..]
    ensures n > |s| ==> r == ""
  {
    if n <= |s| then s[n..] else ""
  }

  /** The entry the loop of `getPluginFromFilePath` settles on: a directory
      that starts the path, longer than every earlier one that does (only a
      strictly longer one replaces the match, and "" never does). */
  function Longest(items: seq<(string, string)>, f: string): (r: Option<nat>)
    ensures r.Some? ==> r.value < |items| && StartsWith(f, items[r.value].1) && items[r.value].1 != ""
    ensures r.Some? ==> forall j :: 0 <= j < |items| && StartsWith(f, items[j].1) ==> |items[j].1| <= |items[r.value].1|
    ensures r.Some? ==> forall j :: 0 <= j < r.value && StartsWith(f, items[j].1) ==> |items[j].1| < |items[r.value].1|
    ensures r.None? <==> forall j :: 0 <= j < |items| ==> !StartsWith(f, items[j].1) || items[j].1 == ""
    decreases |items|
  {
    if items == [] then None
    else
      var last := |items| - 1;
      var init := items[..last];
      var r := Longest(init, f);
      assert forall j :: 0 <= j < last ==> init[j] == items[j];
      var cur := if r.Some? then |items[r.value].1| else 0;
      if StartsWith(f, items[last].1) && |items[last].1| > cur then Some(last) else r
  }

  /** `namespace.split('\\')[0]`. */
  function FirstSegment(ns: string): string {
    Split(ns, "\\")[0]
  }

  /** The loop's `longestMatch` after the entries `items`. */
  function LongestMatch(items: seq<(string, string)>, f: string): string {
    match Longest(items, f)
    case None => ""
    case Some(j) => items[j].1
  }

  /** The loop's `matchedPlugin` after the entries `items`. */
  function MatchedPlugin(items: seq<(string, string)>, f: string): Option<string> {
    match Longest(items, f)
    case None => None
    case Some(j) => Some(FirstSegment(items[j].0))
  }

  /** `getPluginFromFilePath(filePath)` against the namespace map `nsMap`:
      the folder after `plugins`, or else the first segment of the
      namespace with the longest directory that starts the path. */
  function PluginFromFilePath(nsMap: Option<NsMap>, f: string): (r: Option<string>)
    requires nsMap.Some? ==> Valid(nsMap.value)
    ensures Contains(f, "plugins") ==> r.Some? && '/' !in r.value
    ensures !Contains(f, "plugins") && nsMap.None? ==> r.None?
    ensures !Contains(f, "plugins") && r.Some? ==>
      nsMap.Some? && r.value != "" && Longest(Items(nsMap.value), f).Some? &&
      r.value == FirstSegment(nsMap.value.keys[Longest(Items(nsMap.value), f).value])
  {
    match IndexOf(f, "plugins")
    case Some(k) =>
      SplitPiecesFree(SliceFrom(f, k + 8), '/');
      Some(Split(SliceFrom(f, k + 8), "/")[0])
    case None =>
      if nsMap.None? then None
      else
        var m := MatchedPlugin(Items(nsMap.value), f);
        if Truthy(m) then m else None
  }

  /** Outside `plugins`, the entry with the longest matching directory names
      the plugin whenever the first segment of its namespace is non-empty. */
  lemma PluginFromFilePathFound(nsMap: NsMap, f: string)
    requires Valid(nsMap) && !Contains(f, "plugins") && Longest(Items(nsMap), f).Some?
    requires FirstSegment(nsMap.keys[Longest(Items(nsMap), f).value]) != ""
    ensures PluginFromFilePath(Some(nsMap), f) == Some(FirstSegment(nsMap.keys[Longest(Items(nsMap), f).value]))
  {
  }

  /** The folder that follows `plugins/` names the plugin. */
  lemma PluginFolderName(nsMap: Option<NsMap>, f: string, k: nat, name: string, rest: string)
    requires nsMap.Some? ==> Valid(nsMap.value)
    requires IndexOf(f, "plugins") == Some(k) && SliceFrom(f, k + 8) == name + rest
    requires '/' !in name && (rest == "" || rest[0] == '/')
    ensures PluginFromFilePath(nsMap, f) == Some(name)
  {
    NoCharNoOccurrence(name, '/');
    SplitWithout(name, "/");
    if rest != "" {
      assert rest == "/" + rest[1..];
      SplitAround(name, rest[1..], '/');
      assert name + rest == name + ['/'] + rest[1..];
    } else {
      assert name + rest == name;
    }
  }

  /** A path outside `plugins` with no namespace directory starting it has no plugin. */
  lemma PluginUnmatched(nsMap: NsMap, f: string)
    requires Valid(nsMap) && !Contains(f, "plugins")
    requires forall k :: k in nsMap.entries ==> !StartsWith(f, nsMap.entries[k]) || nsMap.entries[k] == ""
    ensures PluginFromFilePath(Some(nsMap), f).None?
  {
    var items := Items(nsMap);
    forall j | 0 <= j < |items| ensures !StartsWith(f, items[j].1) || items[j].1 == "" {
      assert nsMap.keys[j] in nsMap.entries;
    }
  }

  // ---------------------------------------------------------------------
  // The module state: the cached namespace map

  /** The text between `return array(` and `);` in the autoloader, if the
      file exists and has one. */
  function AutoloadBody(file: AutoloadFile): Option<string> {
    if file.Missing? then None else ReturnBody(file.content)
  }

  /** The open document: its path and its text. */
  datatype Document = Document(path: string, text: string)

  /** The candidates `findElementFiles` tries, most specific first. */
  function ElementSearchKeys(plugin: Option<string>, filePlugin: Option<string>, parsedPath: string): (r: seq<string>)
    ensures |r| >= 1 && r[|r| - 1] == parsedPath
  {
    (if Truthy(plugin) then [plugin.value + "." + parsedPath]
     else if Truthy(filePlugin) then [filePlugin.value + "." + parsedPath]
     else [])
    + [parsedPath]
  }

  /** The index of the first entry whose key ends with `key`, from `i` on. */
  function FirstEndsWith(items: seq<(string, seq<string>)>, key: string, i: nat): (r: Option<nat>)
    requires i <= |items|
    ensures r.Some? ==> i <= r.value < |items| && EndsWith(items[r.value].0, key)
    ensures r.Some? ==> forall j :: i <= j < r.value ==> !EndsWith(items[j].0, key)
    ensures r.None? ==> forall j :: i <= j < |items| ==> !EndsWith(items[j].0, key)
    decreases |items| - i
  {
    if i == |items| then None
    else if EndsWith(items[i].0, key) then Some(i)
    else FirstEndsWith(items, key, i + 1)
  }

  /** What the inner loop of `findElementFiles` assigns for one key: the
      list of the first map entry whose key ends with it. */
  function KeyPaths(items: seq<(string, seq<string>)>, key: string): seq<string> {
    match FirstEndsWith(items, key, 0)
    case None => []
    case Some(j) => items[j].1
  }

  function ElementLists(items: seq<(string, seq<string>)>, keys: seq<string>): (r: seq<seq<string>>)
    ensures |r| == |keys| && forall k :: 0 <= k < |keys| ==> r[k] == KeyPaths(items, keys[k])
  {
    seq(|keys|, k requires 0 <= k < |keys| => KeyPaths(items, keys[k]))
  }

  /** The first non-empty list from `i` on (the outer loops stop at it). */
  function FirstNonEmpty(lists: seq<seq<string>>, i: nat): (r: seq<string>)
    requires i <= |lists|
    ensures r == [] <==> forall k :: i <= k < |lists| ==> lists[k] == []
    decreases |lists| - i
  {
    if i == |lists| then []
    else if lists[i] != [] then lists[i]
    else FirstNonEmpty(lists, i + 1)
  }

  /** A non-empty result is the list at some index, every list before which is empty. */
  lemma {:induction false} FirstNonEmptyFound(lists: seq<seq<string>>, i: nat)
    requires i <= |lists| && FirstNonEmpty(lists, i) != []
    ensures exists k :: i <= k < |lists| && FirstNonEmpty(lists, i) == lists[k] && forall j :: i <= j < k ==> lists[j] == []
    decreases |lists| - i
  {
    if lists[i] != [] {
      assert FirstNonEmpty(lists, i) == lists[i];
    } else {
      FirstNonEmptyFound(lists, i + 1);
      var k :| i + 1 <= k < |lists| && FirstNonEmpty(lists, i + 1) == lists[k] && forall j :: i + 1 <= j < k ==> lists[j] == [];
      assert forall j :: i <= j < k ==> lists[j] == [];
    }
  }

  /** The first non-empty list of paths, resolved, de-duplicated and sorted. */
  function FirstFiles(lists: seq<seq<string>>, root: string): (r: seq<FileInfo>)
    ensures SortedBy(r, ShowPath) && NoDuplicates(Paths(r))
  {
    var paths := FirstNonEmpty(lists, 0);
    if paths == [] then [] else RemoveDuplicatesAndSort(InfosOf(paths, root))
  }

  /** No result exactly when every list is empty. */
  lemma FirstFilesEmpty(lists: seq<seq<string>>, root: string)
    ensures FirstFiles(lists, root) == [] <==> forall k :: 0 <= k < |lists| ==> lists[k] == []
  {
    FirstFilesPaths(lists, root, FirstFiles(lists, root), FirstNonEmpty(lists, 0));
  }

  /** The first non-empty list decides the paths found. */
  lemma FirstFilesAt(lists: seq<seq<string>>, root: string, k: nat)
    requires k < |lists| && lists[k] != [] && forall j :: 0 <= j < k ==> lists[j] == []
    ensures forall p :: p in Paths(FirstFiles(lists, root)) <==> p in lists[k]
  {
    FirstNonEmptyAt(lists, 0, k);
    FirstFilesPaths(lists, root, FirstFiles(lists, root), FirstNonEmpty(lists, 0));
  }

  lemma {:induction false} FirstNonEmptyAt(lists: seq<seq<string>>, i: nat, k: nat)
    requires i <= k < |lists| && lists[k] != [] && forall j :: i <= j < k ==> lists[j] == []
    ensures FirstNonEmpty(lists, i) == lists[k]
    decreases k - i
  {
    if i < k {
      FirstNonEmptyAt(lists, i + 1, k);
    }
  }

  lemma FirstFilesPaths(lists: seq<seq<string>>, root: string, r: seq<FileInfo>, paths: seq<string>)
    requires r == FirstFiles(lists, root) && paths == FirstNonEmpty(lists, 0)
    ensures r == [] <==> paths == []
    ensures forall p :: p in Paths(r) <==> p in paths
  {
    if paths != [] {
      var infos := InfosOf(paths, root);
      var r := RemoveDuplicatesAndSort(infos);
      assert paths[0] in Paths(infos);
      assert paths[0] in Paths(r);
    }
  }

  /** `findElementFiles` without its file system: the candidates, then the
      first key that yields paths, resolved, de-duplicated and sorted. */
  function ElementFiles(elementMap: Index, nsCache: Option<NsMap>, root: string, elementPath: string, doc: Option<Document>): (r: seq<FileInfo>)
    requires Valid(elementMap) && (nsCache.Some? ==> Valid(nsCache.value))
    ensures SortedBy(r, ShowPath) && NoDuplicates(Paths(r))
  {
    FirstFiles(ElementLists(Items(elementMap), ElementKeys(nsCache, elementPath, doc)), root)
  }

  function ElementKeys(nsCache: Option<NsMap>, elementPath: string, doc: Option<Document>): (r: seq<string>)
    requires nsCache.Some? ==> Valid(nsCache.value)
    ensures |r| >= 1
  {
    var en := ParseElementName(elementPath);
    var filePlugin := if doc.Some? then PluginFromFilePath(nsCache, doc.value.path) else None;
    ElementSearchKeys(en.plugin, filePlugin, en.path)
  }

  /** No element file is found exactly when no candidate key matches. */
  lemma ElementFilesEmpty(elementMap: Index, nsCache: Option<NsMap>, root: string, elementPath: string, doc: Option<Document>)
    requires Valid(elementMap) && (nsCache.Some? ==> Valid(nsCache.value))
    ensures var keys := ElementKeys(nsCache, elementPath, doc);
      ElementFiles(elementMap, nsCache, root, elementPath, doc) == [] <==>
      forall k :: 0 <= k < |keys| ==> KeyPaths(Items(elementMap), keys[k]) == []
  {
    var keys := ElementKeys(nsCache, elementPath, doc);
    FirstFilesEmpty(ElementLists(Items(elementMap), keys), root);
  }

  /** The first candidate key that matches decides the element files. */
  lemma ElementFilesAt(elementMap: Index, nsCache: Option<NsMap>, root: string, elementPath: string, doc: Option<Document>, k: nat)
    requires Valid(elementMap) && (nsCache.Some? ==> Valid(nsCache.value))
    requires var keys := ElementKeys(nsCache, elementPath, doc);
      k < |keys| && KeyPaths(Items(elementMap), keys[k]) != [] &&
      forall j :: 0 <= j < k ==> KeyPaths(Items(elementMap), keys[j]) == []
    ensures var keys := ElementKeys(nsCache, elementPath, doc);
      forall p :: p in Paths(ElementFiles(elementMap, nsCache, root, elementPath, doc)) <==> p in KeyPaths(Items(elementMap), keys[k])
  {
    var keys := ElementKeys(nsCache, elementPath, doc);
    FirstFilesAt(ElementLists(Items(elementMap), keys), root, k);
  }

  /** `cellPaths.concat(...)` over the candidates, in order. */
  function CellPathsFor(cellMap: Index, keys: seq<string>): seq<string>
    decreases |keys|
  {
    if keys == [] then []
    else
      var last := |keys| - 1;
      CellPathsFor(cellMap, keys[..last]) + Lookup(cellMap, keys[last])
  }

  lemma {:induction false} CellPathsForMember(cellMap: Index, keys: seq<string>, p: string)
    ensures p in CellPathsFor(cellMap, keys) <==> exists k :: 0 <= k < |keys| && p in Lookup(cellMap, keys[k])
    decreases |keys|
  {
    if keys != [] {
      var last := |keys| - 1;
      CellPathsForMember(cellMap, keys[..last], p);
      assert forall k :: 0 <= k < last ==> keys[..last][k] == keys[k];
    }
  }

  /** `parsedPath` with `::view` appended when it names no method. */
  function NormalizedCellPath(parsedPath: string): (r: string)
    ensures Contains(r, "::")
  {
    if Contains(parsedPath, "::") then parsedPath
    else
      assert OccursAt(parsedPath + "::view", "::", |parsedPath|);
      parsedPath + "::view"
  }

  /** The candidates `findCellFiles` tries. */
  function CellSearchKeys(plugin: Option<string>, filePlugin: Option<string>, currentPlugin: Option<string>, normalized: string): (r: seq<string>)
    ensures |r| >= 1 && r[|r| - 1] == normalized
  {
    (if Truthy(plugin) then [plugin.value + "." + normalized] else [])
    + (if Truthy(filePlugin) then [filePlugin.value + "." + normalized] else [])
    + (if Truthy(currentPlugin) && currentPlugin != filePlugin then [currentPlugin.value + "." + normalized] else [])
    + [normalized]
  }

  function CellKeys(nsCache: Option<NsMap>, cellPath: string, currentPlugin: Option<string>, doc: Option<Document>): (r: seq<string>)
    requires nsCache.Some? ==> Valid(nsCache.value)
    ensures |r| >= 1
  {
    var en := ParseElementName(cellPath);
    var filePlugin := if doc.Some? then PluginFromFilePath(nsCache, doc.value.path) else None;
    CellSearchKeys(en.plugin, filePlugin, currentPlugin, NormalizedCellPath(en.path))
  }

  /** Where the cell class is looked for. */
  function CellClassPaths(fs: Node, pluginNs: Option<NsMap>, root: string, cellPath: string, currentPlugin: Option<string>): seq<string> {
    var en := ParseElementName(cellPath);
    var cn := ParseCellName(cellPath);
    var pluginPath := if Truthy(en.plugin) then LookupPluginPath(pluginNs, en.plugin.value) else None;
    SearchPaths(root, CellClass, OrElse(cn.plugin, currentPlugin), pluginPath, PluginFolders(fs, root))
  }

  /** `findCellFiles` (without `methodLocation`). */
  function CellFiles(fs: Node, pluginNs: Option<NsMap>, nsCache: Option<NsMap>, cellMap: Index, root: string,
                     cellPath: string, currentPlugin: Option<string>, doc: Option<Document>): (r: seq<FileInfo>)
    requires nsCache.Some? ==> Valid(nsCache.value)
    ensures SortedBy(r, ShowPath) && NoDuplicates(Paths(r))
  {
    var cellPaths := CellPathsFor(cellMap, CellKeys(nsCache, cellPath, currentPlugin, doc));
    if cellPaths == [] then []
    else
      var classFiles := Found(fs, CellClassPaths(fs, pluginNs, root, cellPath, currentPlugin), ParseCellName(cellPath).className + "Cell", [".php"]);
      RemoveDuplicatesAndSort(InfosOf(cellPaths, root) + InfosOf(classFiles, root))
  }

  /** Merged results hold every path of either list, each once. */
  lemma MergedPaths(a: seq<string>, b: seq<string>, root: string, p: string)
    ensures p in Paths(RemoveDuplicatesAndSort(InfosOf(a, root) + InfosOf(b, root))) <==> p in a || p in b
  {
    assert Paths(InfosOf(a, root) + InfosOf(b, root)) == a + b;
  }

  /** Cell results: none unless some candidate has a template; otherwise
      every template of every candidate and every class file found, each once. */
  lemma CellFilesPaths(fs: Node, pluginNs: Option<NsMap>, nsCache: Option<NsMap>, cellMap: Index, root: string,
                       cellPath: string, currentPlugin: Option<string>, doc: Option<Document>, p: string)
    requires nsCache.Some? ==> Valid(nsCache.value)
    ensures var keys := CellKeys(nsCache, cellPath, currentPlugin, doc);
      var r := CellFiles(fs, pluginNs, nsCache, cellMap, root, cellPath, currentPlugin, doc);
      ((forall k :: 0 <= k < |keys| ==> Lookup(cellMap, keys[k]) == []) ==> r == []) &&
      ((exists k :: 0 <= k < |keys| && Lookup(cellMap, keys[k]) != []) ==>
        (p in Paths(r) <==>
          (exists k :: 0 <= k < |keys| && p in Lookup(cellMap, keys[k])) ||
          p in Found(fs, CellClassPaths(fs, pluginNs, root, cellPath, currentPlugin), ParseCellName(cellPath).className + "Cell", [".php"])))
  {
    var keys := CellKeys(nsCache, cellPath, currentPlugin, doc);
    var classFiles := Found(fs, CellClassPaths(fs, pluginNs, root, cellPath, currentPlugin), ParseCellName(cellPath).className + "Cell", [".php"]);
    CellMergeMember(cellMap, keys, classFiles, root, p);
  }

  /** `CellFilesPaths` for any candidate keys and class files. */
  lemma CellMergeMember(cellMap: Index, keys: seq<string>, classFiles: seq<string>, root: string, p: string)
    ensures var cellPaths := CellPathsFor(cellMap, keys);
      var r := if cellPaths == [] then [] else RemoveDuplicatesAndSort(InfosOf(cellPaths, root) + InfosOf(classFiles, root));
      ((forall k :: 0 <= k < |keys| ==> Lookup(cellMap, keys[k]) == []) ==> r == []) &&
      ((exists k :: 0 <= k < |keys| && Lookup(cellMap, keys[k]) != []) ==>
        (p in Paths(r) <==> (exists k :: 0 <= k < |keys| && p in Lookup(cellMap, keys[k])) || p in classFiles))
  {
    var cellPaths := CellPathsFor(cellMap, keys);
    CellPathsForMember(cellMap, keys, p);
    if forall k :: 0 <= k < |keys| ==> Lookup(cellMap, keys[k]) == [] {
      if cellPaths != [] {
        CellPathsForMember(cellMap, keys, cellPaths[0]);
      }
    } else {
      var k :| 0 <= k < |keys| && Lookup(cellMap, keys[k]) != [];
      CellPathsForMember(cellMap, keys, Lookup(cellMap, keys[k])[0]);
      MergedPaths(cellPaths, classFiles, root, p);
    }
  }

  class Resolver {
    /** The module's `namespaceMap`, `null` until the autoloader is parsed. */
    var namespaceMap: Option<NsMap>

    ghost predicate CacheValid()
      reads this
    {
      namespaceMap.Some? ==> Valid(namespaceMap.value)
    }

    constructor()
      ensures namespaceMap == None
    {
      namespaceMap := None;
    }

    /** `parseAutoloadPsr4(workspaceFolder, refresh)`: the cached map unless
        a refresh is asked for; `{}` without touching the cache when the
        file or its `return array(...)` is missing; otherwise the map is
        rebuilt from the entries, each assignment overwriting earlier ones. */
    method ParseAutoloadPsr4(root: string, file: AutoloadFile, refresh: bool) returns (r: NsMap)
      requires CacheValid()
      modifies this
      ensures CacheValid() && Valid(r)
      ensures old(namespaceMap).Some? && !refresh ==> namespaceMap == old(namespaceMap) && r == namespaceMap.value
      ensures (old(namespaceMap).None? || refresh) && AutoloadBody(file).None? ==>
        namespaceMap == old(namespaceMap) && r == Empty()
      ensures (old(namespaceMap).None? || refresh) && AutoloadBody(file).Some? ==>
        r == NamespaceEntries(root, Entries(AutoloadBody(file).value)) && namespaceMap == Some(r)
    {
      if namespaceMap.Some? && !refresh {
        return namespaceMap.value;
      }
      if file.Missing? {
        return Empty();
      }
      var m := ReturnBody(file.content);
      if m.None? {
        return Empty();
      }
      var entries := Split(m.value, ",\n");
      LoadEntries(root, entries);
      r := namespaceMap.value;
    }

    /** The `forEach` of `parseAutoloadPsr4`: the map starts empty and each
        entry that names a namespace and a directory sets it. */
    method LoadEntries(root: string, entries: seq<string>)
      modifies this
      ensures namespaceMap == Some(NamespaceEntries(root, entries))
    {
      var m := Empty();
      ghost var ps := Parsed(root, entries);
      var i := 0;
      while i < |entries|
        invariant 0 <= i <= |entries|
        invariant m == PutAll(ps[..i])
      {
        var e := ParseEntry(root, entries[i]);
        assert e == ps[i];
        PutAllSnoc(ps, i);
        if e.Some? {
          m := Put(m, e.value.0, e.value.1);
        }
        i := i + 1;
      }
      assert ps[..|entries|] == ps;
      namespaceMap := Some(m);
    }

    /** `getPluginFromFilePath(filePath)`. */
    method GetPluginFromFilePath(filePath: string) returns (r: Option<string>)
      requires CacheValid()
      ensures r == PluginFromFilePath(namespaceMap, filePath)
    {
      var pluginsIndex := IndexOf(filePath, "plugins");
      if pluginsIndex.Some? {
        var pathAfterPlugins := SliceFrom(filePath, pluginsIndex.value + 8);
        return Some(Split(pathAfterPlugins, "/")[0]);
      }
      if namespaceMap.Some? {
        var items := Items(namespaceMap.value);
        var longestMatch := "";
        var matchedPlugin: Option<string> := None;
        var i := 0;
        while i < |items|
          invariant 0 <= i <= |items|
          invariant longestMatch == LongestMatch(items[..i], filePath)
          invariant matchedPlugin == MatchedPlugin(items[..i], filePath)
        {
          var (namespace, pluginPath) := items[i];
          if StartsWith(filePath, pluginPath) && |pluginPath| > |longestMatch| {
            longestMatch := pluginPath;
            matchedPlugin := Some(FirstSegment(namespace));
          }
          assert items[..i + 1][..i] == items[..i];
          i := i + 1;
        }
        assert items[..|items|] == items;
        if Truthy(matchedPlugin) {
          return matchedPlugin;
        }
      }
      return None;
    }

    /** `findElementFiles(elementPath, workspaceFolder, currentPlugin, document)`. */
    method FindElementFiles(elements: ElementMapper.ElementIndex, root: string, elementPath: string, doc: Option<Document>)
      returns (r: seq<FileInfo>)
      requires CacheValid() && Valid(elements.elementMap)
      ensures r == ElementFiles(elements.elementMap, namespaceMap, root, elementPath, doc)
    {
      var searchKeys := FindElementKeys(elementPath, doc);
      var items := Items(elements.elementMap);
      var elementPaths := FirstElementPaths(items, searchKeys);
      if |elementPaths| == 0 {
        return [];
      }
      r := RemoveDuplicatesAndSort(InfosOf(elementPaths, root));
    }

    /** The candidate keys of `findElementFiles`, most specific first. */
    method FindElementKeys(elementPath: string, doc: Option<Document>) returns (searchKeys: seq<string>)
      requires CacheValid()
      ensures searchKeys == ElementKeys(namespaceMap, elementPath, doc)
    {
      var en := ParseElementName(elementPath);
      var currentFilePlugin: Option<string> := None;
      if doc.Some? {
        currentFilePlugin := GetPluginFromFilePath(doc.value.path);
      }
      searchKeys := ElementSearchKeys(en.plugin, currentFilePlugin, en.path);
    }

    /** `findCellFiles(cellPath, workspaceFolder, currentPlugin, document)`. */
    method FindCellFiles(fs: Node, registry: PluginRegistry, cells: CellMapper.CellIndex, root: string,
                         cellPath: string, currentPlugin: Option<string>, doc: Option<Document>)
      returns (r: seq<FileInfo>)
      requires CacheValid()
      ensures r == CellFiles(fs, registry.namespaceMap, namespaceMap, cells.cellMap, root, cellPath, currentPlugin, doc)
    {
      var searchPaths := FindCellClassPaths(fs, registry, root, cellPath, currentPlugin);
      var searchKeys := FindCellKeys(cellPath, currentPlugin, doc);
      var cellPaths := CollectCellPaths(cells, searchKeys);
      if |cellPaths| == 0 {
        return [];
      }
      var classFiles := SearchFiles(fs, searchPaths, ParseCellName(cellPath).className + "Cell", [".php"]);
      r := RemoveDuplicatesAndSort(InfosOf(cellPaths, root) + InfosOf(classFiles, root));
    }

    /** The candidate keys of `findCellFiles`, most specific first. */
    method FindCellKeys(cellPath: string, currentPlugin: Option<string>, doc: Option<Document>) returns (searchKeys: seq<string>)
      requires CacheValid()
      ensures searchKeys == CellKeys(namespaceMap, cellPath, currentPlugin, doc)
    {
      var en := ParseElementName(cellPath);
      var currentFilePlugin: Option<string> := None;
      if doc.Some? {
        currentFilePlugin := GetPluginFromFilePath(doc.value.path);
      }
      searchKeys := CellSearchKeys(en.plugin, currentFilePlugin, currentPlugin, NormalizedCellPath(en.path));
    }
  }

  /** The folders `findCellFiles` looks for the cell class in. */
  method FindCellClassPaths(fs: Node, registry: PluginRegistry, root: string, cellPath: string, currentPlugin: Option<string>)
    returns (searchPaths: seq<string>)
    ensures searchPaths == CellClassPaths(fs, registry.namespaceMap, root, cellPath, currentPlugin)
  {
    var en := ParseElementName(cellPath);
    var cn := ParseCellName(cellPath);
    var pluginPath := if Truthy(en.plugin) then registry.GetPluginPath(en.plugin.value) else None;
    searchPaths := ConstructSearchPaths(fs, root, CellClass, OrElse(cn.plugin, currentPlugin), pluginPath);
  }

  /** The loop of `findCellFiles` that concatenates the templates of every candidate. */
  method CollectCellPaths(cells: CellMapper.CellIndex, searchKeys: seq<string>) returns (cellPaths: seq<string>)
    ensures cellPaths == CellPathsFor(cells.cellMap, searchKeys)
  {
    cellPaths := [];
    var i := 0;
    while i < |searchKeys|
      invariant 0 <= i <= |searchKeys|
      invariant cellPaths == CellPathsFor(cells.cellMap, searchKeys[..i])
    {
      var paths := cells.GetCellPaths(searchKeys[i]);
      if |paths| > 0 {
        cellPaths := cellPaths + paths;
      }
      assert searchKeys[..i + 1][..i] == searchKeys[..i];
      i := i + 1;
    }
    assert searchKeys[..|searchKeys|] == searchKeys;
  }

  /** The outer loop of `findElementFiles`: the paths of the first key that has any. */
  method FirstElementPaths(items: seq<(string, seq<string>)>, searchKeys: seq<string>) returns (elementPaths: seq<string>)
    ensures elementPaths == FirstNonEmpty(ElementLists(items, searchKeys), 0)
  {
    ghost var lists := ElementLists(items, searchKeys);
    elementPaths := [];
    var i := 0;
    while i < |searchKeys|
      invariant 0 <= i <= |searchKeys|
      invariant elementPaths == [] && FirstNonEmpty(lists, i) == FirstNonEmpty(lists, 0)
    {
      elementPaths := MatchKey(items, searchKeys[i]);
      if |elementPaths| > 0 {
        assert elementPaths == lists[i] == FirstNonEmpty(lists, i);
        break;
      }
      i := i + 1;
    }
  }

  /** The inner loop of `findElementFiles` for one key. */
  method MatchKey(items: seq<(string, seq<string>)>, searchKey: string) returns (paths: seq<string>)
    ensures paths == KeyPaths(items, searchKey)
  {
    paths := [];
    var j := 0;
    while j < |items|
      invariant 0 <= j <= |items|
      invariant paths == [] && FirstEndsWith(items, searchKey, j) == FirstEndsWith(items, searchKey, 0)
    {
      var (mapKey, ps) := items[j];
      if EndsWith(mapKey, searchKey) {
        paths := ps;
        break;
      }
      j := j + 1;
    }
  }

  // ---------------------------------------------------------------------
  // findTemplateFiles

  /** The `type` argument of `findTemplateFiles`. */
  datatype TemplateType = ForTemplate | ForController | ForCell

  function TemplateSearchPaths(fs: Node, pluginNs: Option<NsMap>, root: string, en: ElementName, t: TemplateType): seq<string> {
    var pluginPath := if Truthy(en.plugin) then LookupPluginPath(pluginNs, en.plugin.value) else None;
    match t
    case ForController => SearchPaths(root, Template, en.plugin, pluginPath, PluginFolders(fs, root))
    case ForCell => SearchPaths(root, Cell, en.plugin, pluginPath, PluginFolders(fs, root))
    case ForTemplate => []
  }

  /** The view path looked for: below the controller's (or cell's) folder
      when the document declares one. */
  function FinalSearchPath(en: ElementName, t: TemplateType, text: string): string {
    var info := match t
      case ForController => ExtractClassInfo(text, "Controller")
      case ForCell => ExtractClassInfo(text, "Cell")
      case ForTemplate => None;
    match info
    case Some(ci) => Join3(ci.suffix, ci.name, Underscore(en.path))
    case None => en.path
  }

  /** `Array.from(new Set([finalSearchPath, viewParts.join(path.sep)])).sort(...)`. */
  function PossiblePaths(final: string): seq<string> {
    DistinctSorted([final, Join(Split(final, "/"), "/")])
  }

  /** With `/` as separator both spellings coincide and one path is left. */
  lemma PossiblePathsSingle(final: string)
    ensures PossiblePaths(final) == [final]
  {
    JoinSplit(final, "/");
    var r := PossiblePaths(final);
    assert final in r;
    assert forall x :: x in r ==> x == final;
    assert [final, final][..1] == [final];
    assert Distinct([final, final]) == [final];
    assert SortStrings([final]) == [final];
  }

  /** `names.flatMap(p => searchFiles(bases, p))`. */
  function FoundAll(fs: Node, bases: seq<string>, names: seq<string>): seq<string>
    decreases |names|
  {
    if names == [] then []
    else
      var last := |names| - 1;
      FoundAll(fs, bases, names[..last]) + Found(fs, bases, names[last], [".php"])
  }

  function TemplateFiles(fs: Node, pluginNs: Option<NsMap>, root: string, searchPath: string, t: TemplateType, doc: Document): (r: seq<FileInfo>)
    ensures forall i :: 0 <= i < |r| ==> r[i] == CreateFileInfo(r[i].fsPath, root)
  {
    var en := ParseElementName(searchPath);
    var bases := TemplateSearchPaths(fs, pluginNs, root, en, t);
    InfosOf(FoundAll(fs, bases, PossiblePaths(FinalSearchPath(en, t, doc.text))), root)
  }

  /** `findTemplateFiles` finds `<final path>.php` under each candidate
      directory, in directory order. */
  lemma TemplateFilesFound(fs: Node, pluginNs: Option<NsMap>, root: string, searchPath: string, t: TemplateType, doc: Document)
    ensures var en := ParseElementName(searchPath);
      TemplateFiles(fs, pluginNs, root, searchPath, t, doc) ==
      InfosOf(Found(fs, TemplateSearchPaths(fs, pluginNs, root, en, t), FinalSearchPath(en, t, doc.text), [".php"]), root)
  {
    var en := ParseElementName(searchPath);
    var final := FinalSearchPath(en, t, doc.text);
    PossiblePathsSingle(final);
    var bases := TemplateSearchPaths(fs, pluginNs, root, en, t);
    assert FoundAll(fs, bases, [final]) == FoundAll(fs, bases, []) + Found(fs, bases, final, [".php"]);
  }

  /** A plain template reference has no search directories and finds nothing. */
  lemma TemplateTypeFindsNothing(fs: Node, pluginNs: Option<NsMap>, root: string, searchPath: string, doc: Document)
    ensures TemplateFiles(fs, pluginNs, root, searchPath, ForTemplate, doc) == []
  {
    TemplateFilesFound(fs, pluginNs, root, searchPath, ForTemplate, doc);
  }

  /** `findTemplateFiles(searchPath, workspaceFolder, type, document)`. */
  method FindTemplateFiles(fs: Node, registry: PluginRegistry, root: string, searchPath: string, t: TemplateType, doc: Document)
    returns (r: seq<FileInfo>)
    ensures r == TemplateFiles(fs, registry.namespaceMap, root, searchPath, t, doc)
  {
    var en := ParseElementName(searchPath);
    var searchPaths := FindTemplateSearchPaths(fs, registry, root, en, t);
    var finalSearchPath := en.path;
    if t == ForController {
      var controllerInfo := ExtractClassInfo(doc.text, "Controller");
      if controllerInfo.Some? {
        finalSearchPath := Join3(controllerInfo.value.suffix, controllerInfo.value.name, Underscore(en.path));
      }
    } else if t == ForCell {
      var cellInfo := ExtractClassInfo(doc.text, "Cell");
      if cellInfo.Some? {
        finalSearchPath := Join3(cellInfo.value.suffix, cellInfo.value.name, Underscore(en.path));
      }
    }
    var possiblePaths := DistinctSorted([finalSearchPath, Join(Split(finalSearchPath, "/"), "/")]);
    var files := SearchAll(fs, searchPaths, possiblePaths);
    r := InfosOf(files, root);
  }

  /** The candidate directories of `findTemplateFiles`: those of the
      `template` kind for a controller, of the `cell` kind for a cell, none
      for a template. */
  method FindTemplateSearchPaths(fs: Node, registry: PluginRegistry, root: string, en: ElementName, t: TemplateType)
    returns (searchPaths: seq<string>)
    ensures searchPaths == TemplateSearchPaths(fs, registry.namespaceMap, root, en, t)
  {
    var pluginPath := if Truthy(en.plugin) then registry.GetPluginPath(en.plugin.value) else None;
    searchPaths := [];
    if t == ForController {
      searchPaths := ConstructSearchPaths(fs, root, Template, en.plugin, pluginPath);
    } else if t == ForCell {
      searchPaths := ConstructSearchPaths(fs, root, Cell, en.plugin, pluginPath);
    }
  }

  /** `possiblePaths.flatMap(p => searchFiles(searchPaths, p))`. */
  method SearchAll(fs: Node, searchPaths: seq<string>, names: seq<string>) returns (files: seq<string>)
    ensures files == FoundAll(fs, searchPaths, names)
  {
    files := [];
    var k := 0;
    while k < |names|
      invariant 0 <= k <= |names|
      invariant files == FoundAll(fs, searchPaths, names[..k])
    {
      var found := SearchFiles(fs, searchPaths, names[k], [".php"]);
      assert names[..k + 1][..k] == names[..k];
      files := files + found;
      k := k + 1;
    }
    assert names[..|names|] == names;
  }

  // ---------------------------------------------------------------------
  // findJsFiles / findCssFiles

  /** `[currentPlugin.name, name]` when a plugin is current, else `[name]`. */
  function AssetKeys(name: string, currentPlugin: Option<string>): (r: seq<string>)
    ensures |r| >= 1 && r[|r| - 1] == name
  {
    (if Truthy(currentPlugin) then [currentPlugin.value + "." + name] else []) + [name]
  }

  function LookupAll(ix: Index, keys: seq<string>): (r: seq<seq<string>>)
    ensures |r| == |keys| && forall k :: 0 <= k < |keys| ==> r[k] == Lookup(ix, keys[k])
  {
    seq(|keys|, k requires 0 <= k < |keys| => Lookup(ix, keys[k]))
  }

  /** `findJsFiles` / `findCssFiles` over the script or stylesheet map. */
  function AssetFiles(ix: Index, root: string, name: string, currentPlugin: Option<string>): (r: seq<FileInfo>)
    ensures SortedBy(r, ShowPath) && NoDuplicates(Paths(r))
  {
    FirstFiles(LookupAll(ix, AssetKeys(name, currentPlugin)), root)
  }

  /** The plugin's own asset wins when it exists; otherwise the bare name is used. */
  lemma AssetFilesChoice(ix: Index, root: string, name: string, currentPlugin: Option<string>, p: string)
    ensures var own := if Truthy(currentPlugin) then Lookup(ix, currentPlugin.value + "." + name) else [];
      var chosen := if own != [] then own else Lookup(ix, name);
      p in Paths(AssetFiles(ix, root, name, currentPlugin)) <==> p in chosen
  {
    var keys := AssetKeys(name, currentPlugin);
    var lists := LookupAll(ix, keys);
    FirstFilesPaths(lists, root, FirstFiles(lists, root), FirstNonEmpty(lists, 0));
    if Truthy(currentPlugin) {
      assert FirstNonEmpty(lists, 2) == [];
      assert FirstNonEmpty(lists, 1) == lists[1];
    } else {
      assert FirstNonEmpty(lists, 1) == [];
    }
  }

  method FindAssetFiles(ix: Index, root: string, name: string, currentPlugin: Option<string>) returns (r: seq<FileInfo>)
    ensures r == AssetFiles(ix, root, name, currentPlugin)
  {
    var searchKeys := AssetKeys(name, currentPlugin);
    ghost var lists := LookupAll(ix, searchKeys);
    var assetPaths: seq<string> := [];
    var i := 0;
    while i < |searchKeys|
      invariant 0 <= i <= |searchKeys|
      invariant assetPaths == [] && FirstNonEmpty(lists, i) == FirstNonEmpty(lists, 0)
    {
      var paths := Lookup(ix, searchKeys[i]);
      if |paths| > 0 {
        assetPaths := assetPaths + paths;
        assert assetPaths == lists[i] == FirstNonEmpty(lists, i);
        break;
      }
      i := i + 1;
    }
    assert assetPaths == FirstNonEmpty(lists, 0);
    if |assetPaths| == 0 {
      return [];
    }
    r := RemoveDuplicatesAndSort(InfosOf(assetPaths, root));
  }

  /** `findJsFiles(scriptName, workspaceFolder, currentPlugin)`. */
  method FindJsFiles(assets: AssetMapper.AssetIndex, root: string, scriptName: string, currentPlugin: Option<string>)
    returns (r: seq<FileInfo>)
    ensures r == AssetFiles(assets.jsMap, root, scriptName, currentPlugin)
  {
    r := FindAssetFiles(assets.jsMap, root, scriptName, currentPlugin);
  }

  /** `findCssFiles(cssName, workspaceFolder, currentPlugin)`. */
  method FindCssFiles(assets: AssetMapper.AssetIndex, root: string, cssName: string, currentPlugin: Option<string>)
    returns (r: seq<FileInfo>)
    ensures r == AssetFiles(assets.cssMap, root, cssName, currentPlugin)
  {
    r := FindAssetFiles(assets.cssMap, root, cssName, currentPlugin);
  }

  // ---------------------------------------------------------------------
  // findEmailTemplateFiles

  /** `paths.map(p => path.join(p, sub))`. */
  function Under(paths: seq<string>, sub: string): (r: seq<string>)
    ensures |r| == |paths| && forall i :: 0 <= i < |paths| ==> r[i] == JoinPath(paths[i], sub)
  {
    seq(|paths|, i requires 0 <= i < |paths| => JoinPath(paths[i], sub))
  }

  function EmailFiles(fs: Node, root: string, templateName: string, plugin: Option<string>): (r: seq<FileInfo>)
    ensures forall i :: 0 <= i < |r| ==> r[i] == CreateFileInfo(r[i].fsPath, root)
  {
    var searchPaths := SearchPaths(root, Email, plugin, None, PluginFolders(fs, root));
    InfosOf(Found(fs, Under(searchPaths, "text"), templateName, [".php"])
            + Found(fs, Under(searchPaths, "html"), templateName, [".php"]), root)
  }

  /** Text templates come first, then HTML ones; each is an existing
      `<dir>/text/<name>.php` or `<dir>/html/<name>.php` of a search directory. */
  lemma EmailFilesFound(fs: Node, root: string, templateName: string, plugin: Option<string>, p: string)
    ensures var dirs := SearchPaths(root, Email, plugin, None, PluginFolders(fs, root));
      p in Paths(EmailFiles(fs, root, templateName, plugin)) <==>
      Exists(fs, p) &&
      exists i :: 0 <= i < |dirs| &&
        (p == JoinPath(JoinPath(dirs[i], "text"), templateName + ".php") ||
         p == JoinPath(JoinPath(dirs[i], "html"), templateName + ".php"))
  {
    var dirs := SearchPaths(root, Email, plugin, None, PluginFolders(fs, root));
    var text := Found(fs, Under(dirs, "text"), templateName, [".php"]);
    var html := Found(fs, Under(dirs, "html"), templateName, [".php"]);
    assert Paths(EmailFiles(fs, root, templateName, plugin)) == text + html;
    FoundUnder(fs, dirs, "text", templateName, p);
    FoundUnder(fs, dirs, "html", templateName, p);
  }

  /** A `.php` file found below `<dir>/<sub>` for one of the directories. */
  lemma FoundUnder(fs: Node, dirs: seq<string>, sub: string, name: string, p: string)
    ensures p in Found(fs, Under(dirs, sub), name, [".php"]) <==>
      Exists(fs, p) && exists i :: 0 <= i < |dirs| && p == JoinPath(JoinPath(dirs[i], sub), name + ".php")
  {
    var bases := Under(dirs, sub);
    FoundMember(fs, bases, name, [".php"], p);
    if exists i, j :: 0 <= i < |bases| && 0 <= j < 1 && p == JoinPath(bases[i], name + [".php"][j]) {
      var i, j :| 0 <= i < |bases| && 0 <= j < 1 && p == JoinPath(bases[i], name + [".php"][j]);
      assert p == JoinPath(JoinPath(dirs[i], sub), name + ".php");
    }
    if exists i :: 0 <= i < |dirs| && p == JoinPath(JoinPath(dirs[i], sub), name + ".php") {
      var i :| 0 <= i < |dirs| && p == JoinPath(JoinPath(dirs[i], sub), name + ".php");
      assert p == JoinPath(bases[i], name + [".php"][0]);
    }
  }

  /** `findEmailTemplateFiles(templateName, workspaceFolder, plugin)`. */
  method FindEmailTemplateFiles(fs: Node, root: string, templateName: string, plugin: Option<string>)
    returns (r: seq<FileInfo>)
    ensures r == EmailFiles(fs, root, templateName, plugin)
  {
    var searchPaths := ConstructSearchPaths(fs, root, Email, plugin, None);
    var textFiles := SearchFiles(fs, Under(searchPaths, "text"), templateName, [".php"]);
    var htmlFiles := SearchFiles(fs, Under(searchPaths, "html"), templateName, [".php"]);
    r := InfosOf(textFiles + htmlFiles, root);
  }
}
