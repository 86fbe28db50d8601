/** Reading Composer's `vendor/composer/autoload_psr4.php`: the entries of
    its `return array(...)` become a map from namespace to the directory that
    holds it. The capture of the `return array(...)` regular expression is
    modelled by `ReturnBody`; what follows it — the splitting, trimming,
    unquoting and path rules — is modelled after it. */
module Autoload {
  import opened Text
  import opened Dicts
  import opened NodePath
  import opened PluginUtils

  // ---------------------------------------------------------------------
  // the namespace side of an entry

  predicate IsQuote(c: char) { c == '\'' || c == '"' }

  /** `.replace(/^['"]|['"]$/g, '')`: one quote removed at each end. */
  function StripQuotes(s: string): (r: string)
    ensures |r| <= |s|
  {
    var a := if |s| > 0 && IsQuote(s[0]) then s[1..] else s;
    if |a| > 0 && IsQuote(a[|a| - 1]) then a[..|a| - 1] else a
  }

  /** `.replace(/\\\\/g, '\\')`: each pair of backslashes, left to right, becomes one. */
  function Unescape(s: string): (r: string)
    ensures |r| <= |s|
    decreases |s|
  {
    if |s| >= 2 && s[0] == '\\' && s[1] == '\\' then "\\" + Unescape(s[2..])
    else if s == [] then []
    else [s[0]] + Unescape(s[1..])
  }

  /** `.replace(/\\$/, '')`. */
  function DropTrailingBackslash(s: string): (r: string) {
    if |s| > 0 && s[|s| - 1] == '\\' then s[..|s| - 1] else s
  }

  function CleanNamespace(ns: string): string {
    DropTrailingBackslash(Unescape(StripQuotes(ns)))
  }

  /** How a PHP single-quoted literal spells a namespace: every backslash doubled. */
  function Escape(ns: string): (r: string)
    decreases |ns|
  {
    if ns == [] then []
    else (if ns[0] == '\\' then "\\\\" else [ns[0]]) + Escape(ns[1..])
  }

  lemma {:induction false} UnescapeEscape(x: string, y: string)
    ensures Unescape(Escape(x) + y) == x + Unescape(y)
    decreases |x|
  {
    if x != [] {
      var e := Escape(x[1..]);
      var h := if x[0] == '\\' then "\\\\" else [x[0]];
      assert Escape(x) == h + e;
      UnescapeEscape(x[1..], y);
      var z := h + (e + y);
      Assoc(h, e, y);
      if x[0] == '\\' {
        assert z[0] == '\\' && z[1] == '\\' && z[2..] == e + y;
        assert Unescape(z) == [x[0]] + Unescape(e + y);
      } else {
        assert z[0] == x[0] && z[1..] == e + y;
        assert Unescape(z) == [x[0]] + Unescape(e + y);
      }
      assert x == [x[0]] + x[1..];
      Assoc([x[0]], x[1..], Unescape(y));
    } else {
      assert Escape(x) + y == y && x + Unescape(y) == Unescape(y);
    }
  }

  /** The key Composer writes for namespace `ns` (`'App\\'` for `App`) is
      cleaned back to `ns`: quotes, escapes and the trailing `\` removed. */
  lemma CleanNamespaceLiteral(ns: string, q: char)
    requires IsQuote(q)
    ensures CleanNamespace([q] + Escape(ns) + "\\\\" + [q]) == ns
  {
    var lit := [q] + Escape(ns) + "\\\\" + [q];
    assert lit[1..] == Escape(ns) + "\\\\" + [q];
    assert StripQuotes(lit) == Escape(ns) + "\\\\";
    UnescapeEscape(ns, "\\\\");
    assert "\\\\"[2..] == [];
    assert Unescape("\\\\") == "\\";
    assert (ns + "\\")[..|ns|] == ns;
  }

  // ---------------------------------------------------------------------
  // the path side of an entry

  /** A line terminator, which `.` in a regular expression does not match. */
  predicate IsLineBreak(c: char) {
    c == '\n' || c == '\r' || c == '\U{2028}' || c == '\U{2029}'
  }

  /** The text before the first line terminator. */
  function FirstLine(s: string): (r: string)
    ensures |r| <= |s| && r == s[..|r|]
    ensures forall i :: 0 <= i < |r| ==> !IsLineBreak(r[i])
    ensures |r| < |s| ==> IsLineBreak(s[|r|])
    decreases |s|
  {
    if s == [] || IsLineBreak(s[0]) then []
    else [s[0]] + FirstLine(s[1..])
  }

  /** `/<name>\s*\.\s*'(.*)'/` matched at the very start of `t`: the name,
      optional spaces, a dot, optional spaces, a quote, and then the rest of
      the line up to its last `'` is the capture. */
  function CaptureAt(t: string, name: string): Option<string> {
    if !StartsWith(t, name) then None else AfterName(TrimStart(t[|name|..]))
  }

  function AfterName(u: string): Option<string> {
    if u == [] || u[0] != '.' then None else AfterDot(TrimStart(u[1..]))
  }

  function AfterDot(v: string): Option<string> {
    if v == [] || v[0] != '\'' then None else QuotedRest(FirstLine(v[1..]))
  }

  function QuotedRest(line: string): Option<string> {
    match LastIndexOf(line, '\'')
    case None => None
    case Some(j) => Some(line[..j])
  }

  /** The leftmost match at or after `i`. */
  function CaptureFrom(s: string, name: string, i: nat): Option<string>
    requires i <= |s|
    decreases |s| - i
  {
    match CaptureAt(s[i..], name)
    case Some(c) => Some(c)
    case None => if i == |s| then None else CaptureFrom(s, name, i + 1)
  }

  /** `paths.match(/\$baseDir\s*\.\s*'(.*)'/)` and its `$vendorDir` twin: the first capture. */
  function DirCapture(s: string, name: string): Option<string> {
    CaptureFrom(s, name, 0)
  }

  /** Positions where the name's first character does not occur are skipped. */
  lemma {:induction false} CaptureSkip(s: string, name: string, i: nat, k: nat)
    requires name != [] && i <= k <= |s|
    requires forall j :: i <= j < k ==> s[j] != name[0]
    ensures CaptureFrom(s, name, i) == CaptureFrom(s, name, k)
    decreases k - i
  {
    if i < k {
      assert s[i..][0] == s[i];
      assert CaptureAt(s[i..], name) == None;
      CaptureSkip(s, name, i + 1, k);
    }
  }

  predicate Plain(s: string) {
    forall i :: 0 <= i < |s| ==> s[i] != '\'' && !IsLineBreak(s[i])
  }

  /** `<name> . '<p>'<post>`: the capture is `p` when neither `p` nor `post`
      holds a quote or a line break. */
  lemma CaptureSimple(name: string, p: string, post: string)
    requires Plain(p) && Plain(post)
    ensures CaptureAt(name + " . '" + p + "'" + post, name) == Some(p)
  {
    var x := p + "'" + post;
    AfterNameQuoted(p, post);
    var u := ['.'] + ([' '] + (['\''] + x));
    TrimStartOne(' ', u);
    CaptureAtName(name, [' '] + u);
    SimpleShape(name, p, post);
  }

  /** A match at the start of `name + w` reads on after the name. */
  lemma CaptureAtName(name: string, w: string)
    ensures CaptureAt(name + w, name) == AfterName(TrimStart(w))
  {
    var t := name + w;
    assert t[..|name|] == name && t[|name|..] == w;
  }

  lemma SimpleShape(name: string, p: string, post: string)
    ensures name + " . '" + p + "'" + post == name + ([' '] + (['.'] + ([' '] + (['\''] + (p + "'" + post)))))
  {
    Concat5(name, " . '", p, "'", post);
    assert " . '" + (p + "'" + post) == [' '] + (['.'] + ([' '] + (['\''] + (p + "'" + post))));
  }

  lemma AfterNameQuoted(p: string, post: string)
    requires Plain(p) && Plain(post)
    ensures AfterName(['.'] + ([' '] + (['\''] + (p + "'" + post)))) == Some(p)
  {
    var x := p + "'" + post;
    var v := ['\''] + x;
    assert v[1..] == x;
    QuotedText(p, post);
    assert AfterDot(v) == Some(p);
    var u := ['.'] + ([' '] + v);
    assert u[1..] == [' '] + v;
    TrimStartOne(' ', v);
  }

  lemma Assoc(a: string, b: string, c: string)
    ensures a + b + c == a + (b + c)
  {
  }

  lemma Concat5(a: string, b: string, c: string, d: string, e: string)
    ensures a + b + c + d + e == a + (b + (c + d + e))
  {
  }

  lemma TrimStartOne(c: char, rest: string)
    requires IsSpace(c) && rest != [] && !IsSpace(rest[0])
    ensures TrimStart([c] + rest) == rest
  {
    assert ([c] + rest)[1..] == rest;
  }

  lemma QuotedText(p: string, post: string)
    requires Plain(p) && Plain(post)
    ensures QuotedRest(FirstLine(p + "'" + post)) == Some(p)
  {
    var rest := p + "'" + post;
    QuotedLine(p, post);
    FirstLineWhole(rest);
    var j := |p|;
    assert rest[j] == '\'';
    assert rest[j + 1..] == post;
    NoQuote(post);
    LastIndexOfAt(rest, '\'', j);
    assert rest[..j] == p;
  }

  lemma QuotedLine(p: string, post: string)
    requires Plain(p) && Plain(post)
    ensures forall i :: 0 <= i < |p + "'" + post| ==> !IsLineBreak((p + "'" + post)[i])
  {
    var rest := p + "'" + post;
    forall i | 0 <= i < |rest| ensures !IsLineBreak(rest[i]) {
      if i < |p| {
        assert rest[i] == p[i];
      } else if i > |p| {
        assert rest[i] == post[i - |p| - 1];
      }
    }
  }

  lemma NoQuote(s: string)
    requires Plain(s)
    ensures '\'' !in s
  {
  }

  lemma {:induction false} FirstLineWhole(s: string)
    requires forall i :: 0 <= i < |s| ==> !IsLineBreak(s[i])
    ensures FirstLine(s) == s
    decreases |s|
  {
    if s != [] {
      FirstLineWhole(s[1..]);
      assert s == [s[0]] + s[1..];
    }
  }

  lemma {:induction false} LastIndexOfAt(s: string, c: char, j: nat)
    requires j < |s| && s[j] == c && c !in s[j + 1..]
    ensures LastIndexOf(s, c) == Some(j)
    decreases |s|
  {
    if j < |s| - 1 {
      var init := s[..|s| - 1];
      assert s[|s| - 1] == s[j + 1..][|s| - 2 - j];
      assert init[j + 1..] == s[j + 1..][..|s| - 2 - j];
      LastIndexOfAt(init, c, j);
    }
  }

  /** `replace(/^\//, '')`, dropped when it ends in `tests`, then `replace(/\/src$/, '')`. */
  function RelativeDir(capture: string): (r: Option<string>)
    ensures r.None? <==> EndsWith(if StartsWith(capture, "/") then capture[1..] else capture, "tests")
  {
    var rel := if StartsWith(capture, "/") then capture[1..] else capture;
    if EndsWith(rel, "tests") then None
    else Some(if EndsWith(rel, "/src") then rel[..|rel| - 4] else rel)
  }

  /** `/<dir>/src` names `<dir>`. */
  lemma RelativeDirSrc(dir: string)
    ensures RelativeDir("/" + dir + "/src") == Some(dir)
  {
    var c := "/" + dir + "/src";
    assert c[..1] == "/";
    var rel := c[1..];
    assert rel == dir + "/src";
    assert rel[|rel| - 4..] == "/src";
    assert !EndsWith(rel, "tests") by {
      if |rel| >= 5 {
        assert rel[|rel| - 5..][4] == rel[|rel| - 1] == 'c';
      }
    }
    assert rel[..|rel| - 4] == dir;
  }

  /** The directory an entry's paths name, under the root for `$baseDir`
      and under `<root>/vendor` for `$vendorDir`. */
  function EntryTarget(root: string, paths: string): Option<string> {
    match DirCapture(paths, "$baseDir")
    case Some(c) =>
      (match RelativeDir(c)
       case None => None
       case Some(rel) => Some(JoinPath(root, rel)))
    case None =>
      match DirCapture(paths, "$vendorDir")
      case Some(c) =>
        (match RelativeDir(c)
         case None => None
         case Some(rel) => Some(Join3(root, "vendor", rel)))
      case None => None
  }

  /** A `$baseDir` path `/<dir>/src` is `<root>/<dir>`, a `$vendorDir` one is
      `<root>/vendor/<dir>`, and one ending in `tests` is dropped. */
  lemma EntryTargetRules(root: string, paths: string, dir: string)
    ensures DirCapture(paths, "$baseDir") == Some("/" + dir + "/src") ==>
      EntryTarget(root, paths) == Some(JoinPath(root, dir))
    ensures DirCapture(paths, "$baseDir").None? && DirCapture(paths, "$vendorDir") == Some("/" + dir + "/src") ==>
      EntryTarget(root, paths) == Some(Join3(root, "vendor", dir))
    ensures DirCapture(paths, "$baseDir") == Some("/" + dir + "tests") ==> EntryTarget(root, paths).None?
    ensures DirCapture(paths, "$baseDir").None? && DirCapture(paths, "$vendorDir") == Some("/" + dir + "tests") ==>
      EntryTarget(root, paths).None?
    ensures DirCapture(paths, "$baseDir").None? && DirCapture(paths, "$vendorDir").None? ==> EntryTarget(root, paths).None?
  {
    RelativeDirSrc(dir);
    RelativeDirTests(dir);
  }

  lemma RelativeDirTests(dir: string)
    ensures RelativeDir("/" + dir + "tests") == None
  {
    var c := "/" + dir + "tests";
    assert c[..1] == "/";
    assert c[1..] == dir + "tests";
    assert (dir + "tests")[|dir + "tests"| - 5..] == "tests";
  }

  /** The text Composer writes for a `$baseDir`/`$vendorDir` path: `array(<name> . '<p>')`. */
  function ArrayOf(name: string, p: string): string {
    "array(" + (name + " . '" + p + "'" + ")")
  }

  /** The leftmost match in `array(<name> . '<p>')` captures `p`. */
  lemma ArrayCapture(name: string, p: string)
    requires name != [] && name[0] == '$' && Plain(p)
    ensures DirCapture(ArrayOf(name, p), name) == Some(p)
  {
    var s := ArrayOf(name, p);
    var t := name + " . '" + p + "'" + ")";
    assert s[..6] == "array(" && s[6..] == t;
    forall j | 0 <= j < 6 ensures s[j] != name[0] {
      assert s[j] == s[..6][j];
    }
    CaptureSkip(s, name, 0, 6);
    assert Plain(")") by {
      assert forall i :: 0 <= i < 1 ==> ")"[i] == ')';
    }
    CaptureSimple(name, p, ")");
  }

  // ---------------------------------------------------------------------
  // entries and the whole map

  /** One `,\n`-separated entry: `namespace => paths`, both trimmed and
      non-empty, with a path that names a kept directory. */
  function ParseEntry(root: string, entry: string): (r: Option<(string, string)>)
    ensures r.Some? ==> r.value.0 == CleanNamespace(Trim(Split(entry, "=>")[0]))
  {
    var parts := Split(entry, "=>");
    var ns := Trim(parts[0]);
    var paths := if |parts| >= 2 then Trim(parts[1]) else "";
    if ns == "" || paths == "" then None
    else
      match EntryTarget(root, paths)
      case None => None
      case Some(dir) => Some((CleanNamespace(ns), dir))
  }

  /** Every entry parsed, in order. */
  function Parsed(root: string, entries: seq<string>): (r: seq<Option<(string, string)>>)
    ensures |r| == |entries|
    ensures forall i :: 0 <= i < |entries| ==> r[i] == ParseEntry(root, entries[i])
  {
    seq(|entries|, i requires 0 <= i < |entries| => ParseEntry(root, entries[i]))
  }

  /** `ps[i]` sets namespace `k`. */
  predicate Sets(ps: seq<Option<(string, string)>>, i: int, k: string)
    requires 0 <= i < |ps|
  {
    ps[i].Some? && ps[i].value.0 == k
  }

  /** The assignments of the `forEach`, in order: later ones overwrite earlier ones. */
  function PutAll(ps: seq<Option<(string, string)>>): (m: NsMap)
    ensures Valid(m)
    decreases |ps|
  {
    if ps == [] then Empty()
    else
      var last := |ps| - 1;
      var m := PutAll(ps[..last]);
      if ps[last].None? then m else Put(m, ps[last].value.0, ps[last].value.1)
  }

  /** The map built from the entries of `autoload_psr4.php`. */
  function NamespaceEntries(root: string, entries: seq<string>): (m: NsMap)
    ensures Valid(m)
  {
    PutAll(Parsed(root, entries))
  }

  /** The map holds exactly the namespaces some entry sets. */
  lemma {:induction false} PutAllKeys(ps: seq<Option<(string, string)>>, k: string)
    ensures k in PutAll(ps).entries <==> exists i :: 0 <= i < |ps| && Sets(ps, i, k)
    decreases |ps|
  {
    if ps != [] {
      var last := |ps| - 1;
      PutAllKeys(ps[..last], k);
      assert forall i :: 0 <= i < last ==> (Sets(ps[..last], i, k) <==> Sets(ps, i, k));
      if Sets(ps, last, k) {
        assert k in PutAll(ps).entries;
      }
    }
  }

  /** Each namespace maps to the directory of the LAST entry that sets it. */
  lemma {:induction false} PutAllLast(ps: seq<Option<(string, string)>>, k: string)
    requires k in PutAll(ps).entries
    ensures exists i :: (0 <= i < |ps| && ps[i] == Some((k, PutAll(ps).entries[k]))
      && (forall j :: i < j < |ps| ==> !Sets(ps, j, k)))
    decreases |ps|
  {
    var last := |ps| - 1;
    var init := ps[..last];
    if Sets(ps, last, k) {
      PutAllSetLast(ps);
      assert ps[last] == Some((k, PutAll(ps).entries[k]));
    } else {
      var m := PutAll(init);
      PutAllOtherLast(ps, k);
      PutAllLast(init, k);
      var i :| 0 <= i < last && init[i] == Some((k, m.entries[k])) && (forall j :: i < j < last ==> !Sets(init, j, k));
      assert ps[i] == init[i];
      forall j | i < j < |ps| ensures !Sets(ps, j, k) {
        if j < last {
          assert init[j] == ps[j];
          assert !Sets(init, j, k);
        }
      }
      assert ps[i] == Some((k, PutAll(ps).entries[k]));
    }
  }

  lemma PutAllSetLast(ps: seq<Option<(string, string)>>)
    requires ps != [] && ps[|ps| - 1].Some?
    ensures ps[|ps| - 1].value.0 in PutAll(ps).entries
    ensures PutAll(ps).entries[ps[|ps| - 1].value.0] == ps[|ps| - 1].value.1
  {
  }

  /** An entry that sets another namespace leaves `k`'s directory alone. */
  lemma PutAllOtherLast(ps: seq<Option<(string, string)>>, k: string)
    requires ps != [] && !Sets(ps, |ps| - 1, k) && k in PutAll(ps).entries
    ensures k in PutAll(ps[..|ps| - 1]).entries
    ensures PutAll(ps).entries[k] == PutAll(ps[..|ps| - 1]).entries[k]
  {
  }

  lemma PutAllSnoc(ps: seq<Option<(string, string)>>, i: nat)
    requires i < |ps|
    ensures PutAll(ps[..i + 1]) == if ps[i].None? then PutAll(ps[..i]) else Put(PutAll(ps[..i]), ps[i].value.0, ps[i].value.1)
  {
    assert ps[..i + 1][..i] == ps[..i];
  }

  /** What a read of `vendor/composer/autoload_psr4.php` finds: no file, or
      the file's text. */
  datatype AutoloadFile = Missing | Present(content: string)

  /** The length of the run of whitespace that starts `s`. */
  function SpaceRun(s: string): (n: nat)
    ensures n <= |s| && (forall k :: 0 <= k < n ==> IsSpace(s[k]))
    ensures n < |s| ==> !IsSpace(s[n])
  {
    if s != [] && IsSpace(s[0]) then 1 + SpaceRun(s[1..]) else 0
  }

  /** `return\s+array\s*\(([\s\S]*?)\);` matched at the start of `t`: the
      capture runs up to the first `);` after the parenthesis. */
  function ReturnBodyAt(t: string): (r: Option<string>)
    ensures r.Some? ==> StartsWith(t, "return") && !Contains(r.value, ");")
  {
    if !StartsWith(t, "return") then None
    else
      var a := t[6..];
      var s1 := SpaceRun(a);
      if s1 == 0 then None
      else
        var b := a[s1..];
        if !StartsWith(b, "array") then None
        else
          var c := b[5..];
          var d := c[SpaceRun(c)..];
          if !StartsWith(d, "(") then None
          else
            match IndexOf(d[1..], ");")
            case None => None
            case Some(k) =>
              NoEarlierOccurrence(d[1..], ");", k);
              Some(d[1..][..k])
  }

  /** No occurrence of `sub` lies wholly before its first occurrence. */
  lemma NoEarlierOccurrence(s: string, sub: string, k: nat)
    requires sub != [] && IndexOf(s, sub) == Some(k)
    ensures !Contains(s[..k], sub)
  {
    if Contains(s[..k], sub) {
      var pre := s[..k];
      var j := IndexOfFrom(pre, sub, 0).value;
      assert OccursAt(pre, sub, j);
      assert j + |sub| <= k;
      assert pre[j..j + |sub|] == s[j..j + |sub|];
      assert OccursAt(s, sub, j) && j < k;
    }
  }

  /** `content.match(...)`: the leftmost position where the pattern matches. */
  function ReturnBodyFrom(content: string, i: nat): (r: Option<string>)
    requires i <= |content|
    ensures r.Some? ==> !Contains(r.value, ");")
    decreases |content| - i
  {
    match ReturnBodyAt(content[i..])
    case Some(b) => Some(b)
    case None => if i == |content| then None else ReturnBodyFrom(content, i + 1)
  }

  function ReturnBody(content: string): (r: Option<string>)
    ensures r.Some? ==> !Contains(r.value, ");")
  {
    ReturnBodyFrom(content, 0)
  }

  /** A file that opens with `return array(...);` gives back the array text. */
  lemma ReturnBodyOf(body: string, rest: string)
    requires !Contains(body, ");")
    ensures ReturnBody("return array(" + body + ");" + rest) == Some(body)
  {
    var e := body + ");" + rest;
    FirstClose(body, rest);
    ReturnBodyAtOf(e, |body|);
    assert e[..|body|] == body;
    var t := "return array(" + body + ");" + rest;
    Assoc3("return array(", body, ");", rest);
    assert t[0..] == t;
  }

  lemma Assoc3(a: string, b: string, c: string, d: string)
    ensures a + b + c + d == a + (b + c + d)
  {
  }

  /** The first `);` after a text without one is the one that follows it. */
  lemma FirstClose(body: string, rest: string)
    requires !Contains(body, ");")
    ensures IndexOf(body + ");" + rest, ");") == Some(|body|)
  {
    var e := body + ");" + rest;
    assert e[|body|..|body| + 2] == ");";
    assert e[|body|] == ')';
    assert IndexOfFrom(body, ");", 0).None?;
    forall j | 0 <= j < |body| ensures !OccursAt(e, ");", j) {
      if j + 1 < |body| {
        assert e[j..j + 2] == body[j..j + 2];
        assert !OccursAt(body, ");", j);
      } else {
        assert e[j + 1] == ')';
        assert e[j..j + 2][1] == e[j + 1];
      }
    }
    IndexOfFirst(e, ");", |body|);
  }

  lemma ReturnBodyAtOf(e: string, k: nat)
    requires IndexOf(e, ");") == Some(k)
    ensures ReturnBodyAt("return array(" + e) == Some(e[..k])
  {
    var t := "return array(" + e;
    assert t[..6] == "return";
    var a := t[6..];
    assert a == " array(" + e;
    assert SpaceRun(a) == 1 by {
      assert a[1..] == "array(" + e;
      assert a[1] == 'a';
      assert SpaceRun(a[1..]) == 0;
    }
    var b := a[1..];
    assert b[..5] == "array";
    var c := b[5..];
    assert c == "(" + e;
    assert SpaceRun(c) == 0;
    assert c[0..] == c;
    assert c[1..] == e;
  }

  /** The entries of the array text. */
  function Entries(body: string): seq<string> {
    Split(body, ",\n")
  }
}
