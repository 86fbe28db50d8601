/** The workspace's directory tree, as `fs.existsSync` and
    `fs.readdirSync(..., { withFileTypes: true })` see it, and the two
    recursive traversals the indexers are built from:

    - `Walk`: every regular file below a directory, depth first, in
      `readdirSync` order, with its full path and its `/`-separated path
      relative to the scanned root (the nested `scanDir` closures);
    - `OverrideSteps`: the plugin override directories found at any depth
      below `templates/plugin` (the nested `scanNestedPlugins` closures). */
module FileSystem {
  import opened Text
  import opened NodePath

  /** A directory lists its entries in `readdirSync` order. */
  datatype Node = Dir(name: string, children: seq<Node>) | File(name: string)

  /** The entry called `n`, if a directory lists one. */
  function Child(children: seq<Node>, n: string): (r: Option<Node>)
    ensures r.Some? ==> r.value in children && r.value.name == n
    ensures r.None? ==> forall i :: 0 <= i < |children| ==> children[i].name != n
  {
    if children == [] then None
    else if children[0].name == n then Some(children[0])
    else Child(children[1..], n)
  }

  function Resolve(node: Node, segs: seq<string>): Option<Node>
    decreases |segs|
  {
    if segs == [] then Some(node)
    else match node
      case File(_) => None
      case Dir(_, cs) =>
        match Child(cs, segs[0])
        case None => None
        case Some(c) => Resolve(c, segs[1..])
  }

  /** What is found at an absolute path; `fs` is the directory `/`. */
  function Locate(fs: Node, path: string): Option<Node> {
    Resolve(fs, Segments(path))
  }

  /** `fs.existsSync(path)`: true for directories and regular files alike. */
  predicate Exists(fs: Node, path: string) {
    Locate(fs, path).Some?
  }

  /** A regular file met by a scan: its name, full path and relative path. */
  datatype Entry = Entry(name: string, full: string, rel: string)

  /** `path.join(rel, name).replace(/\\/g, '/')`. */
  function RelJoin(rel: string, n: string): (r: string)
    ensures '\\' !in r
  {
    ReplaceAll(JoinPath(rel, n), '\\', '/')
  }

  /** The regular files below `children`, depth first, in listing order. */
  function Walk(children: seq<Node>, full: string, rel: string): (r: seq<Entry>)
    ensures forall k :: 0 <= k < |children| && children[k].File? ==>
      Entry(children[k].name, JoinPath(full, children[k].name), RelJoin(rel, children[k].name)) in r
    decreases children
  {
    if children == [] then []
    else WalkNode(children[0], full, rel) + Walk(children[1..], full, rel)
  }

  function WalkNode(c: Node, full: string, rel: string): seq<Entry>
    decreases c
  {
    match c
    case File(n) => [Entry(n, JoinPath(full, n), RelJoin(rel, n))]
    case Dir(n, cs) => Walk(cs, JoinPath(full, n), RelJoin(rel, n))
  }

  lemma {:induction false} WalkConcat(a: seq<Node>, b: seq<Node>, full: string, rel: string)
    ensures Walk(a + b, full, rel) == Walk(a, full, rel) + Walk(b, full, rel)
    decreases a
  {
    if a == [] {
      assert a + b == b;
    } else {
      assert (a + b)[0] == a[0] && (a + b)[1..] == a[1..] + b;
      WalkConcat(a[1..], b, full, rel);
    }
  }

  /** The loop over a listing: walking one more entry appends that entry's files. */
  lemma WalkSnoc(cs: seq<Node>, i: nat, full: string, rel: string)
    requires i < |cs|
    ensures Walk(cs[..i + 1], full, rel) == Walk(cs[..i], full, rel) + WalkNode(cs[i], full, rel)
  {
    assert cs[..i + 1] == cs[..i] + [cs[i]];
    WalkConcat(cs[..i], [cs[i]], full, rel);
    assert Walk([cs[i]], full, rel) == WalkNode(cs[i], full, rel) + Walk([], full, rel);
  }

  // ---------------------------------------------------------------------
  // The scans an indexer runs, in order

  /** One `scan...Directory(path, plugin)` call: run over the listing of a
      directory, or `readdirSync` throwing because `path` is a regular file. */
  datatype Step = Scan(plugin: string, children: seq<Node>, path: string) | NotADirectory(path: string)

  /** `if (fs.existsSync(path)) scan...Directory(path, plugin)` for what
      `path` resolves to. */
  function StepAt(found: Option<Node>, path: string, plugin: string): (r: seq<Step>)
    ensures found.None? ==> r == []
    ensures |r| <= 1
  {
    match found
    case None => []
    case Some(Dir(_, cs)) => [Scan(plugin, cs, path)]
    case Some(File(_)) => [NotADirectory(path)]
  }

  /** `scanPluginOverrides` below a listing: every directory at any depth
      that has a `sub` entry (`element` or `cell`) is scanned there, under
      the chain of directory names joined by `/`, and descent goes on below it. */
  function OverrideSteps(children: seq<Node>, path: string, ns: seq<string>, sub: string): (r: seq<Step>)
    ensures (forall k :: 0 <= k < |children| ==> children[k].File?) ==> r == []
    decreases children
  {
    if children == [] then []
    else OverrideNode(children[0], path, ns, sub) + OverrideSteps(children[1..], path, ns, sub)
  }

  function OverrideNode(c: Node, path: string, ns: seq<string>, sub: string): seq<Step>
    decreases c
  {
    match c
    case File(_) => []
    case Dir(n, cs) =>
      var full := JoinPath(path, n);
      StepAt(Child(cs, sub), JoinPath(full, sub), Join(ns + [n], "/"))
        + OverrideSteps(cs, full, ns + [n], sub)
  }

  /** `scanPluginOverrides(path)`: nothing when the path is missing; a
      regular file there makes `readdirSync` throw. */
  function OverrideRoot(fs: Node, path: string, sub: string): seq<Step> {
    match Locate(fs, path)
    case None => []
    case Some(File(_)) => [NotADirectory(path)]
    case Some(Dir(_, cs)) => OverrideSteps(cs, path, [], sub)
  }

  lemma {:induction false} OverrideConcat(a: seq<Node>, b: seq<Node>, path: string, ns: seq<string>, sub: string)
    ensures OverrideSteps(a + b, path, ns, sub) == OverrideSteps(a, path, ns, sub) + OverrideSteps(b, path, ns, sub)
    decreases a
  {
    if a == [] {
      assert a + b == b;
    } else {
      assert (a + b)[0] == a[0] && (a + b)[1..] == a[1..] + b;
      OverrideConcat(a[1..], b, path, ns, sub);
    }
  }

  lemma OverrideSnoc(cs: seq<Node>, i: nat, path: string, ns: seq<string>, sub: string)
    requires i < |cs|
    ensures OverrideSteps(cs[..i + 1], path, ns, sub)
         == OverrideSteps(cs[..i], path, ns, sub) + OverrideNode(cs[i], path, ns, sub)
  {
    assert cs[..i + 1] == cs[..i] + [cs[i]];
    OverrideConcat(cs[..i], [cs[i]], path, ns, sub);
    assert OverrideSteps([cs[i]], path, ns, sub)
        == OverrideNode(cs[i], path, ns, sub) + OverrideSteps([], path, ns, sub);
  }

  /** Scan names: every override scan is named by a non-empty chain that
      extends the chain it was found under. */
  /** `plugin` is the chain `ns` extended by at least one more name. */
  ghost predicate ExtendsChain(plugin: string, ns: seq<string>) {
    exists more: seq<string> :: |more| >= 1 && plugin == Join(ns + more, "/")
  }

  lemma {:induction false} OverrideNames(children: seq<Node>, path: string, ns: seq<string>, sub: string)
    ensures forall s :: s in OverrideSteps(children, path, ns, sub) && s.Scan? ==> ExtendsChain(s.plugin, ns)
    decreases children
  {
    if children != [] {
      OverrideNodeNames(children[0], path, ns, sub);
      OverrideNames(children[1..], path, ns, sub);
    }
  }

  lemma {:induction false} OverrideNodeNames(c: Node, path: string, ns: seq<string>, sub: string)
    ensures forall s :: s in OverrideNode(c, path, ns, sub) && s.Scan? ==> ExtendsChain(s.plugin, ns)
    decreases c
  {
    match c
    case File(_) =>
    case Dir(n, cs) =>
      OverrideNames(cs, JoinPath(path, n), ns + [n], sub);
      var here := StepAt(Child(cs, sub), JoinPath(JoinPath(path, n), sub), Join(ns + [n], "/"));
      forall s | s in OverrideNode(c, path, ns, sub) && s.Scan?
        ensures ExtendsChain(s.plugin, ns)
      {
        if s in here {
          assert s.plugin == Join(ns + [n], "/");
        } else {
          ChainLonger(s.plugin, ns, n);
        }
      }
  }

  /** The directory reached from the listing `children` (found at `path`
      under the chain `ns`) by entering the entries at the indices `idx`,
      one level at a time: its chain, its path and its listing. `None` when
      an index is out of range or names a regular file. */
  function Follow(children: seq<Node>, path: string, ns: seq<string>, idx: seq<nat>): (r: Option<(seq<string>, string, seq<Node>)>)
    ensures r.Some? ==> |r.value.0| == |ns| + |idx| && r.value.0[..|ns|] == ns
    decreases |idx|
  {
    if idx == [] then Some((ns, path, children))
    else if idx[0] >= |children| then None
    else match children[idx[0]]
      case File(_) => None
      case Dir(n, cs) =>
        var r := Follow(cs, JoinPath(path, n), ns + [n], idx[1..]);
        assert r.Some? ==> r.value.0[..|ns|] == (ns + [n])[..|ns|];
        r
  }

  /** `s` is the scan `StepAt` makes for the `sub` entry of a directory at
      least one level below the listing, under that directory's chain. */
  predicate FoundAt(children: seq<Node>, path: string, ns: seq<string>, sub: string, idx: seq<nat>, s: Step) {
    |idx| >= 1 && Follow(children, path, ns, idx).Some? &&
    var (chain, dir, cs) := Follow(children, path, ns, idx).value;
    s in StepAt(Child(cs, sub), JoinPath(dir, sub), Join(chain, "/"))
  }

  /** A step of one entry is a step of the listing. */
  lemma {:induction false} OverrideMember(children: seq<Node>, i: nat, path: string, ns: seq<string>, sub: string, s: Step)
    requires i < |children| && s in OverrideNode(children[i], path, ns, sub)
    ensures s in OverrideSteps(children, path, ns, sub)
    decreases i
  {
    if i > 0 {
      assert children[1..][i - 1] == children[i];
      OverrideMember(children[1..], i - 1, path, ns, sub, s);
    }
  }

  /** Completeness: every directory at any depth that has a `sub` entry is
      scanned (or throws) there, under its chain of names. */
  lemma {:induction false} OverrideStepFound(children: seq<Node>, path: string, ns: seq<string>, sub: string, idx: seq<nat>, s: Step)
    requires FoundAt(children, path, ns, sub, idx, s)
    ensures s in OverrideSteps(children, path, ns, sub)
    decreases |idx|
  {
    var i := idx[0];
    var c := children[i];
    assert c.Dir?;
    var n, cs := c.name, c.children;
    var full := JoinPath(path, n);
    assert Follow(children, path, ns, idx) == Follow(cs, full, ns + [n], idx[1..]);
    if |idx| == 1 {
      assert idx[1..] == [];
    } else {
      OverrideStepFound(cs, full, ns + [n], sub, idx[1..], s);
    }
    assert s in OverrideNode(c, path, ns, sub);
    OverrideMember(children, i, path, ns, sub, s);
  }

  /** `templates/plugin/Blog/element`: the folder `Blog` with an `element`
      directory is scanned under the name `Blog`. */
  lemma OverrideExample()
    ensures var found := Scan("Blog", [], JoinPath(JoinPath("/t", "Blog"), "element"));
      var listing := [Dir("Blog", [Dir("element", [])])];
      FoundAt(listing, "/t", [], "element", [0], found) && found in OverrideSteps(listing, "/t", [], "element")
  {
    var listing := [Dir("Blog", [Dir("element", [])])];
    var found := Scan("Blog", [], JoinPath(JoinPath("/t", "Blog"), "element"));
    assert Join([] + ["Blog"], "/") == "Blog";
    assert FoundAt(listing, "/t", [], "element", [0], found);
    OverrideStepFound(listing, "/t", [], "element", [0], found);
  }

  /** Soundness: every step comes from such a directory. */
  lemma {:induction false} OverrideStepOrigin(children: seq<Node>, path: string, ns: seq<string>, sub: string, s: Step)
    returns (idx: seq<nat>)
    requires s in OverrideSteps(children, path, ns, sub)
    ensures FoundAt(children, path, ns, sub, idx, s)
    decreases children
  {
    var c := children[0];
    if s in OverrideNode(c, path, ns, sub) {
      assert c.Dir?;
      var n, cs := c.name, c.children;
      var full := JoinPath(path, n);
      if s in StepAt(Child(cs, sub), JoinPath(full, sub), Join(ns + [n], "/")) {
        idx := [0];
        assert Follow(children, path, ns, idx) == Follow(cs, full, ns + [n], []);
      } else {
        var rest := OverrideStepOrigin(cs, full, ns + [n], sub, s);
        idx := [0] + rest;
        assert idx[1..] == rest;
        assert Follow(children, path, ns, idx) == Follow(cs, full, ns + [n], rest);
      }
    } else {
      var rest := OverrideStepOrigin(children[1..], path, ns, sub, s);
      idx := [rest[0] + 1] + rest[1..];
      assert children[idx[0]] == children[1..][rest[0]];
      assert idx[1..] == rest[1..];
      assert Follow(children, path, ns, idx) == Follow(children[1..], path, ns, rest);
    }
  }

  /** A chain that extends `ns + [n]` also extends `ns`. */
  lemma ChainLonger(plugin: string, ns: seq<string>, n: string)
    requires ExtendsChain(plugin, ns + [n])
    ensures ExtendsChain(plugin, ns)
  {
    var more :| |more| >= 1 && plugin == Join(ns + [n] + more, "/");
    var longer := [n] + more;
    assert ns + [n] + more == ns + longer;
    assert |longer| >= 1 && plugin == Join(ns + longer, "/");
  }

  /** Runs scans in order and stops at the first one that throws. `scan`
      folds one directory's files into the state and reports whether it
      completed. */
  function RunSteps<S>(s: S, steps: seq<Step>, scan: (S, string, seq<Entry>) -> (S, bool)): (r: (S, bool))
    ensures r.1 ==> forall i :: 0 <= i < |steps| ==> steps[i].Scan?
    decreases |steps|
  {
    if steps == [] then (s, true)
    else match steps[0]
      case NotADirectory(_) => (s, false)
      case Scan(plugin, cs, path) =>
        var (s', ok) := scan(s, plugin, Walk(cs, path, ""));
        if ok then RunSteps(s', steps[1..], scan) else (s', false)
  }

  lemma {:induction false} RunStepsConcat<S>(s: S, a: seq<Step>, b: seq<Step>, scan: (S, string, seq<Entry>) -> (S, bool))
    ensures RunSteps(s, a + b, scan) ==
      var (s', ok) := RunSteps(s, a, scan); if ok then RunSteps(s', b, scan) else (s', false)
    decreases |a|
  {
    if a == [] {
      assert a + b == b;
    } else {
      assert (a + b)[0] == a[0] && (a + b)[1..] == a[1..] + b;
      match a[0]
      case NotADirectory(_) =>
      case Scan(plugin, cs, path) =>
        var (s', ok) := scan(s, plugin, Walk(cs, path, ""));
        if ok {
          RunStepsConcat(s', a[1..], b, scan);
        }
    }
  }

  /** After a prefix of scans that completed, the rest runs from the state it left. */
  lemma RunStepsThen<S>(s: S, a: seq<Step>, b: seq<Step>, t: S, scan: (S, string, seq<Entry>) -> (S, bool))
    requires RunSteps(s, a, scan) == (t, true)
    ensures RunSteps(s, a + b, scan) == RunSteps(t, b, scan)
  {
    RunStepsConcat(s, a, b, scan);
  }

  /** Once a scan has thrown, later steps are never run. */
  lemma RunStepsStop<S>(s: S, a: seq<Step>, b: seq<Step>, scan: (S, string, seq<Entry>) -> (S, bool))
    requires !RunSteps(s, a, scan).1
    ensures RunSteps(s, a + b, scan) == RunSteps(s, a, scan)
  {
    RunStepsConcat(s, a, b, scan);
  }

  /** The steps of a loop, one group per iteration, run in order. */
  function Flatten<T>(ss: seq<seq<T>>): seq<T>
    decreases |ss|
  {
    if ss == [] then []
    else
      var last := |ss| - 1;
      Flatten(ss[..last]) + ss[last]
  }

  lemma FlattenSnoc<T>(ss: seq<seq<T>>, i: nat)
    requires i < |ss|
    ensures Flatten(ss[..i + 1]) == Flatten(ss[..i]) + ss[i]
  {
    assert ss[..i + 1][..i] == ss[..i];
  }

  lemma {:induction false} FlattenConcat<T>(a: seq<seq<T>>, b: seq<seq<T>>)
    ensures Flatten(a + b) == Flatten(a) + Flatten(b)
    decreases |b|
  {
    if b == [] {
      assert a + b == a;
    } else {
      var last := |b| - 1;
      assert (a + b)[..|a + b| - 1] == a + b[..last];
      assert (a + b)[|a + b| - 1] == b[last];
      assert Flatten(a + b) == Flatten(a + b[..last]) + b[last];
      FlattenConcat(a, b[..last]);
      assert Flatten(b) == Flatten(b[..last]) + b[last];
      assert Flatten(a) + Flatten(b[..last]) + b[last] == Flatten(a) + (Flatten(b[..last]) + b[last]);
    }
  }

  /** One more iteration of a loop of scans after `pre`: the run goes on from
      the state the iteration left, or stops there for good when it threw. */
  lemma RunIteration<S>(init: S, pre: seq<Step>, ss: seq<seq<Step>>, i: nat, before: S, after: S, ok: bool,
                        scan: (S, string, seq<Entry>) -> (S, bool))
    requires i < |ss|
    requires RunSteps(init, pre + Flatten(ss[..i]), scan) == (before, true)
    requires RunSteps(before, ss[i], scan) == (after, ok)
    ensures RunSteps(init, pre + Flatten(ss[..i + 1]), scan) == (after, ok)
    ensures !ok ==> RunSteps(init, pre + Flatten(ss), scan) == (after, false)
  {
    FlattenSnoc(ss, i);
    SeqAssoc(pre, Flatten(ss[..i]), ss[i]);
    RunStepsThen(init, pre + Flatten(ss[..i]), ss[i], before, scan);
    if !ok {
      RunRestSkipped(init, pre, ss, i + 1, after, scan);
    }
  }

  /** `RunIteration` for a loop that starts with nothing run before it. */
  lemma RunNext<S>(init: S, ss: seq<seq<Step>>, i: nat, before: S, after: S, ok: bool,
                   scan: (S, string, seq<Entry>) -> (S, bool))
    requires i < |ss|
    requires RunSteps(init, Flatten(ss[..i]), scan) == (before, true)
    requires RunSteps(before, ss[i], scan) == (after, ok)
    ensures RunSteps(init, Flatten(ss[..i + 1]), scan) == (after, ok)
    ensures !ok ==> RunSteps(init, Flatten(ss), scan) == (after, false)
  {
    assert [] + Flatten(ss[..i]) == Flatten(ss[..i]);
    RunIteration(init, [], ss, i, before, after, ok, scan);
    assert [] + Flatten(ss[..i + 1]) == Flatten(ss[..i + 1]);
    assert [] + Flatten(ss) == Flatten(ss);
  }

  /** Nothing run yet: the state is unchanged. */
  lemma RunNone<S>(init: S, ss: seq<seq<Step>>, scan: (S, string, seq<Entry>) -> (S, bool))
    ensures RunSteps(init, Flatten(ss[..0]), scan) == (init, true)
  {
    assert ss[..0] == [];
  }

  lemma RunRestSkipped<S>(init: S, pre: seq<Step>, ss: seq<seq<Step>>, n: nat, after: S,
                          scan: (S, string, seq<Entry>) -> (S, bool))
    requires n <= |ss|
    requires RunSteps(init, pre + Flatten(ss[..n]), scan) == (after, false)
    ensures RunSteps(init, pre + Flatten(ss), scan) == (after, false)
  {
    assert ss[..n] + ss[n..] == ss;
    RunFlattenStop(init, pre, ss[..n], ss[n..], after, scan);
  }

  lemma RunFlattenStop<S>(init: S, pre: seq<Step>, a: seq<seq<Step>>, b: seq<seq<Step>>, after: S,
                          scan: (S, string, seq<Entry>) -> (S, bool))
    requires RunSteps(init, pre + Flatten(a), scan) == (after, false)
    ensures RunSteps(init, pre + Flatten(a + b), scan) == (after, false)
  {
    FlattenConcat(a, b);
    SeqAssoc(pre, Flatten(a), Flatten(b));
    RunStepsStop(init, pre + Flatten(a), Flatten(b), scan);
  }

  /** A loop that ran to its end. */
  lemma FlattenAll<T>(ss: seq<seq<T>>)
    ensures Flatten(ss[..|ss|]) == Flatten(ss)
  {
    assert ss[..|ss|] == ss;
  }

  /** A single step run on its own. */
  lemma RunOne<S>(s: S, st: Step, scan: (S, string, seq<Entry>) -> (S, bool))
    ensures st.NotADirectory? ==> RunSteps(s, [st], scan) == (s, false)
    ensures st.Scan? ==> RunSteps(s, [st], scan) == scan(s, st.plugin, Walk(st.children, st.path, ""))
  {
    assert [st][1..] == [];
  }

  /** The override steps of each entry of a listing. */
  function OverrideNodes(cs: seq<Node>, path: string, ns: seq<string>, sub: string): (r: seq<seq<Step>>)
    ensures |r| == |cs|
    ensures forall i :: 0 <= i < |cs| ==> r[i] == OverrideNode(cs[i], path, ns, sub)
  {
    seq(|cs|, i requires 0 <= i < |cs| => OverrideNode(cs[i], path, ns, sub))
  }

  /** `OverrideSteps` is the loop over the listing, one entry at a time. */
  lemma {:induction false} OverrideFlatten(cs: seq<Node>, path: string, ns: seq<string>, sub: string)
    ensures OverrideSteps(cs, path, ns, sub) == Flatten(OverrideNodes(cs, path, ns, sub))
    decreases |cs|
  {
    if cs != [] {
      var last := |cs| - 1;
      OverrideFlatten(cs[..last], path, ns, sub);
      OverrideSnoc(cs, last, path, ns, sub);
      assert cs[..last + 1] == cs;
      assert OverrideNodes(cs, path, ns, sub)[..last] == OverrideNodes(cs[..last], path, ns, sub);
    }
  }
}
