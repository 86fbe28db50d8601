/** The completion provider: which index a line offers names from, the
    case-insensitive prefix filter over that index's keys, and the
    completion items built from the matching keys (the text to insert after
    what was typed and the range it replaces). */
module Completion {
  import opened Text
  import opened Dicts
  import ElementMapper
  import CellMapper
  import AssetMapper

  // ---------------------------------------------------------------------
  // findMatchingCompletions

  /** The `type` argument of `findMatchingCompletions`; `Unknown` is the
      `default` branch of its `switch`. */
  datatype CompletionType = ElementNames | TemplateNames | CellNames | JsNames | CssNames | Unknown

  /** The keys `findMatchingCompletions` starts from: the names of the index
      the type selects, in the order that index keeps them. */
  function AllKeys(elements: ElementMapper.ElementIndex, cells: CellMapper.CellIndex,
                   assets: AssetMapper.AssetIndex, t: CompletionType): (r: seq<string>)
    reads elements, cells, assets
    ensures t == Unknown ==> r == []
    ensures (t == ElementNames || t == TemplateNames) && Valid(elements.elementMap) ==>
      forall k :: k in r <==> k in elements.elementMap.entries
    ensures t == CellNames && Valid(cells.cellMap) ==> forall k :: k in r <==> k in cells.cellMap.entries
    ensures t == JsNames && Valid(assets.jsMap) ==> forall k :: k in r <==> k in assets.jsMap.entries
    ensures t == CssNames && Valid(assets.cssMap) ==> forall k :: k in r <==> k in assets.cssMap.entries
  {
    match t
    case ElementNames | TemplateNames => elements.GetAllElementNames()
    case CellNames => cells.GetAllCellNames()
    case JsNames => assets.GetAllJsNames()
    case CssNames => assets.GetAllCssNames()
    case Unknown => []
  }

  /** A key is offered for `prefix` when its lower-cased form starts with the
      lower-cased prefix. */
  predicate Matches(key: string, prefix: string) {
    StartsWith(Lower(key), Lower(prefix))
  }

  /** `keys.filter(key => key.toLowerCase().startsWith(prefix.toLowerCase()))`. */
  function MatchingKeys(keys: seq<string>, prefix: string): (r: seq<string>)
    ensures |r| <= |keys|
    ensures forall k :: k in r <==> k in keys && Matches(k, prefix)
  {
    if keys == [] then []
    else (if Matches(keys[0], prefix) then [keys[0]] else []) + MatchingKeys(keys[1..], prefix)
  }

  /** The filter keeps the keys' order: filtering a concatenation filters
      each part. */
  lemma {:induction false} MatchingKeysConcat(a: seq<string>, b: seq<string>, prefix: string)
    ensures MatchingKeys(a + b, prefix) == MatchingKeys(a, prefix) + MatchingKeys(b, prefix)
  {
    if a != [] {
      assert (a + b)[0] == a[0];
      assert (a + b)[1..] == a[1..] + b;
      MatchingKeysConcat(a[1..], b, prefix);
    } else {
      assert a + b == b;
    }
  }

  /** One key is kept exactly when it matches. */
  lemma MatchingKeysSingle(k: string, prefix: string)
    ensures MatchingKeys([k], prefix) == if Matches(k, prefix) then [k] else []
  {
    assert [k][1..] == [];
  }

  /** The empty prefix offers every key, in order. */
  lemma {:induction false} MatchingKeysEmptyPrefix(keys: seq<string>)
    ensures MatchingKeys(keys, "") == keys
  {
    if keys != [] {
      assert Lower(keys[0])[..0] == Lower("");
      MatchingKeysEmptyPrefix(keys[1..]);
    }
  }

  /** `findMatchingCompletions(prefix, type)`. */
  function FindMatchingCompletions(elements: ElementMapper.ElementIndex, cells: CellMapper.CellIndex,
                                   assets: AssetMapper.AssetIndex, prefix: string, t: CompletionType): (r: seq<string>)
    reads elements, cells, assets
    ensures t == Unknown ==> r == []
    ensures forall k :: k in r <==> k in AllKeys(elements, cells, assets, t) && Matches(k, prefix)
  {
    MatchingKeys(AllKeys(elements, cells, assets, t), prefix)
  }

  // ---------------------------------------------------------------------
  // The common-prefix loop of createCompletionItems

  /** Two characters agree under `toLowerCase`. */
  predicate SameLower(a: char, b: char) {
    ToLowerChar(a) == ToLowerChar(b)
  }

  /** `n` is where the loop stops: within both strings, the first `n`
      characters agree case-insensitively, and a bound is reached or the next
      characters differ. */
  predicate IsCommonPrefixLen(prefix: string, completion: string, n: nat) {
    n <= |prefix| && n <= |completion| &&
    (forall i :: 0 <= i < n ==> SameLower(prefix[i], completion[i])) &&
    (n == |prefix| || n == |completion| || !SameLower(prefix[n], completion[n]))
  }

  /** The length of the longest case-insensitive common prefix. */
  function CommonPrefixLen(prefix: string, completion: string): (n: nat)
    ensures IsCommonPrefixLen(prefix, completion, n)
  {
    if prefix == [] || completion == [] || !SameLower(prefix[0], completion[0]) then 0
    else 1 + CommonPrefixLen(prefix[1..], completion[1..])
  }

  /** The stopping condition determines the length. */
  lemma {:induction false} CommonPrefixLenUnique(prefix: string, completion: string, n: nat)
    requires IsCommonPrefixLen(prefix, completion, n)
    ensures n == CommonPrefixLen(prefix, completion)
  {
    if prefix == [] || completion == [] || !SameLower(prefix[0], completion[0]) {
    } else {
      assert n != 0;
      CommonPrefixLenUnique(prefix[1..], completion[1..], n - 1);
    }
  }

  /** The `while` loop of `createCompletionItems`. */
  method CommonPrefixLength(prefix: string, completion: string) returns (n: nat)
    ensures n == CommonPrefixLen(prefix, completion)
  {
    n := 0;
    while n < |prefix| && n < |completion| && SameLower(prefix[n], completion[n])
      invariant n <= |prefix| && n <= |completion|
      invariant forall i :: 0 <= i < n ==> SameLower(prefix[i], completion[i])
    {
      n := n + 1;
    }
    CommonPrefixLenUnique(prefix, completion, n);
  }

  /** A key the filter kept agrees with the whole prefix. */
  lemma MatchedCommonPrefix(prefix: string, completion: string)
    requires Matches(completion, prefix)
    ensures CommonPrefixLen(prefix, completion) == |prefix|
  {
    forall i | 0 <= i < |prefix|
      ensures SameLower(prefix[i], completion[i])
    {
      assert Lower(completion)[..|prefix|][i] == Lower(prefix)[i];
    }
  }

  /** The common prefix is the whole prefix only for a key the filter keeps. */
  lemma CommonPrefixMatches(prefix: string, completion: string)
    requires CommonPrefixLen(prefix, completion) == |prefix|
    ensures Matches(completion, prefix)
  {
    assert Lower(completion)[..|prefix|] == Lower(prefix);
  }

  // ---------------------------------------------------------------------
  // Completion items

  /** A document position: zero-based line and character. */
  datatype Position = Position(line: nat, character: nat)

  /** `vscode.CompletionItemKind.Snippet` (elements, cells) or `File` (assets). */
  datatype ItemKind = Snippet | FileItem

  /** The fields of a completion item the provider sets. */
  datatype Item = Item(name: string, kind: ItemKind, detail: string, insertText: string,
                       rangeStart: Position, rangeEnd: Position)

  /** The item `createCompletionItems` builds for one key at `pos`: it inserts
      what follows the case-insensitive common prefix, over a range that ends
      at the cursor and starts where that common prefix ends in the typed
      text. */
  function ItemFor(completion: string, kind: ItemKind, prefix: string, pos: Position): (it: Item)
    requires |prefix| <= pos.character
    ensures it.name == completion && it.detail == completion && it.kind == kind
    ensures |it.insertText| <= |completion|
    ensures completion[..|completion| - |it.insertText|] + it.insertText == completion
    ensures IsCommonPrefixLen(prefix, completion, |completion| - |it.insertText|)
    ensures it.rangeEnd == pos && it.rangeStart.line == pos.line
    ensures it.rangeStart.character + |prefix| == pos.character + (|completion| - |it.insertText|)
  {
    var cpl := CommonPrefixLen(prefix, completion);
    Item(completion, kind, completion, completion[cpl..],
         Position(pos.line, pos.character - |prefix| + cpl), pos)
  }

  /** For a key the filter kept, the item inserts the rest of the key after
      the typed prefix and replaces nothing. */
  lemma MatchedItem(completion: string, kind: ItemKind, prefix: string, pos: Position)
    requires Matches(completion, prefix) && |prefix| <= pos.character
    ensures ItemFor(completion, kind, prefix, pos).insertText == completion[|prefix|..]
    ensures ItemFor(completion, kind, prefix, pos).rangeStart == pos
  {
    MatchedCommonPrefix(prefix, completion);
  }

  /** `completions.map(...)` of `createCompletionItems`. */
  function MapItems(completions: seq<string>, kind: ItemKind, prefix: string, pos: Position): (r: seq<Item>)
    requires |prefix| <= pos.character
    ensures |r| == |completions|
    ensures forall i :: 0 <= i < |r| ==> r[i] == ItemFor(completions[i], kind, prefix, pos)
  {
    seq(|completions|, i requires 0 <= i < |completions| => ItemFor(completions[i], kind, prefix, pos))
  }

  function Labels(items: seq<Item>): (r: seq<string>)
    ensures |r| == |items| && forall i :: 0 <= i < |r| ==> r[i] == items[i].name
  {
    seq(|items|, i requires 0 <= i < |items| => items[i].name)
  }

  // ---------------------------------------------------------------------
  // The line-prefix patterns of provideCompletionItems

  /** The class `[\w\/\.]` (the script pattern's `[\w\/\d_\.]` is the same set). */
  predicate IsNameChar(c: char) {
    IsWordChar(c) || c == '/' || c == '.'
  }

  predicate IsQuote(c: char) {
    c == '\'' || c == '"'
  }

  /** The length of the longest run of name characters that ends `s`. */
  function NameRun(s: string): (n: nat)
    ensures n <= |s|
    ensures forall i :: |s| - n <= i < |s| ==> IsNameChar(s[i])
    ensures n == |s| || !IsNameChar(s[|s| - n - 1])
  {
    if s != [] && IsNameChar(s[|s| - 1]) then NameRun(s[..|s| - 1]) + 1 else 0
  }

  /** `callee`, blanks, `(`, blanks, a quote, then name characters up to the
      end of `line`: the named group `prefix` of the pattern, or `None` when
      the pattern does not match. */
  function CallPrefix(line: string, callee: string): (r: Option<string>)
    ensures r.Some? ==> EndsWith(line, r.value) && forall i :: 0 <= i < |r.value| ==> IsNameChar(r.value[i])
  {
    var n := NameRun(line);
    var head := line[..|line| - n];
    if head == [] || !IsQuote(head[|head| - 1]) then None
    else
      var a := TrimEnd(head[..|head| - 1]);
      if a == [] || a[|a| - 1] != '(' then None
      else if EndsWith(TrimEnd(a[..|a| - 1]), callee) then Some(line[|line| - n..])
      else None
  }

  predicate AllSpaces(s: string) {
    forall i :: 0 <= i < |s| ==> IsSpace(s[i])
  }

  predicate AllNameChars(s: string) {
    forall i :: 0 <= i < |s| ==> IsNameChar(s[i])
  }

  /** Trailing blanks after a non-blank character are exactly what `trimEnd` removes. */
  lemma {:induction false} TrimEndBlanks(u: string, s: string)
    requires u != [] && !IsSpace(u[|u| - 1]) && AllSpaces(s)
    ensures TrimEnd(u + s) == u
    decreases |s|
  {
    if s == [] {
      assert u + s == u;
    } else {
      assert (u + s)[..|u + s| - 1] == u + s[..|s| - 1];
      TrimEndBlanks(u, s[..|s| - 1]);
    }
  }

  /** What `trimEnd` removes is blanks. */
  lemma {:induction false} TrimEndRemoves(s: string)
    ensures AllSpaces(s[|TrimEnd(s)|..])
    decreases |s|
  {
    if s != [] && IsSpace(s[|s| - 1]) {
      TrimEndRemoves(s[..|s| - 1]);
      assert TrimEnd(s) == TrimEnd(s[..|s| - 1]);
    }
  }

  /** A run of name characters after a non-name character is the whole run. */
  lemma {:induction false} NameRunOf(u: string, p: string)
    requires u != [] && !IsNameChar(u[|u| - 1]) && AllNameChars(p)
    ensures NameRun(u + p) == |p|
    decreases |p|
  {
    if p == [] {
      assert u + p == u;
    } else {
      assert (u + p)[..|u + p| - 1] == u + p[..|p| - 1];
      NameRunOf(u, p[..|p| - 1]);
    }
  }

  /** Every line the pattern describes yields its typed name. */
  lemma CallPrefixOf(x: string, callee: string, s1: string, s2: string, q: char, p: string)
    requires callee != [] && !IsSpace(callee[|callee| - 1])
    requires AllSpaces(s1) && AllSpaces(s2) && IsQuote(q) && AllNameChars(p)
    ensures CallPrefix(x + callee + s1 + "(" + s2 + [q] + p, callee) == Some(p)
  {
    var b := x + callee;
    var a := b + s1 + "(";
    var head := a + s2 + [q];
    var line := head + p;
    assert line == x + callee + s1 + "(" + s2 + [q] + p;
    NameRunOf(head, p);
    assert line[..|line| - |p|] == head;
    assert head[..|head| - 1] == a + s2;
    TrimEndBlanks(a, s2);
    assert a[..|a| - 1] == b + s1;
    TrimEndBlanks(b, s1);
    assert EndsWith(b, callee) by {
      assert b[|b| - |callee|..] == callee;
    }
    assert line[|line| - |p|..] == p;
  }

  /** Every line the pattern takes has the shape the pattern describes. */
  lemma CallPrefixPieces(line: string, callee: string) returns (x: string, s1: string, s2: string, q: char)
    requires CallPrefix(line, callee).Some?
    ensures AllSpaces(s1) && AllSpaces(s2) && IsQuote(q)
    ensures line == x + callee + s1 + "(" + s2 + [q] + CallPrefix(line, callee).value
  {
    CallPrefixUnfold(line, callee);
    var n := NameRun(line);
    var p := line[|line| - n..];
    var head := line[..|line| - n];
    q := head[|head| - 1];
    var rest := head[..|head| - 1];
    var a := TrimEnd(rest);
    var c := a[..|a| - 1];
    var b := TrimEnd(c);
    s2 := rest[|a|..];
    s1 := c[|b|..];
    x := b[..|b| - |callee|];
    Pieces(line, n, head, rest, a, c, b, x, callee, s1, s2, q, p);
  }

  /** What a match tells about the line, piece by piece. */
  lemma CallPrefixUnfold(line: string, callee: string)
    requires CallPrefix(line, callee).Some?
    ensures var n := NameRun(line);
      var head := line[..|line| - n];
      head != [] && IsQuote(head[|head| - 1]) &&
      var a := TrimEnd(head[..|head| - 1]);
      a != [] && a[|a| - 1] == '(' && EndsWith(TrimEnd(a[..|a| - 1]), callee) &&
      CallPrefix(line, callee).value == line[|line| - n..]
  {
  }

  /** Re-assembling the pieces. */
  lemma Pieces(line: string, n: nat, head: string, rest: string, a: string, c: string, b: string,
               x: string, callee: string, s1: string, s2: string, q: char, p: string)
    requires n <= |line| && head == line[..|line| - n] && p == line[|line| - n..]
    requires head != [] && q == head[|head| - 1] && rest == head[..|head| - 1]
    requires a == TrimEnd(rest) && s2 == rest[|a|..]
    requires a != [] && a[|a| - 1] == '(' && c == a[..|a| - 1]
    requires b == TrimEnd(c) && s1 == c[|b|..]
    requires EndsWith(b, callee) && x == b[..|b| - |callee|]
    ensures AllSpaces(s1) && AllSpaces(s2)
    ensures line == x + callee + s1 + "(" + s2 + [q] + p
  {
    TrimEndParts(rest);
    TrimEndParts(c);
    SplitTail(line, n);
    SplitTail(head, 1);
    SplitTail(a, 1);
    SplitTail(b, |callee|);
    assert head[|head| - 1..] == [q];
    assert a[|a| - 1..] == "(";
  }

  lemma SplitTail(s: string, k: nat)
    requires k <= |s|
    ensures s == s[..|s| - k] + s[|s| - k..]
  {
  }

  lemma TrimEndParts(s: string)
    ensures s == TrimEnd(s) + s[|TrimEnd(s)|..] && AllSpaces(s[|TrimEnd(s)|..])
  {
    TrimEndRemoves(s);
  }

  const ElementCallee := "$this->element"
  const CellCallee := "$this->cell"
  const RenderCallee := "$this->render"
  const ScriptCallee := "$this->Html->script"
  const CssCallee := "$this->Html->css"

  /** Which `if` branch of `provideCompletionItems` a line prefix takes, with
      the typed name where the branch uses one. */
  datatype LineContext =
    | ElementPrefix(prefix: string)
    | CellPrefix(prefix: string)
    | RenderPrefix
    | ScriptPrefix(prefix: string)
    | CssPrefix(prefix: string)
    | NoPrefix
  {
    predicate HasPrefix() {
      ElementPrefix? || CellPrefix? || ScriptPrefix? || CssPrefix?
    }
  }

  /** The chain of pattern tests, in the order the source tries them. */
  function Classify(linePrefix: string): (ctx: LineContext)
    ensures ctx.HasPrefix() ==> EndsWith(linePrefix, ctx.prefix)
    ensures ctx.ElementPrefix? <==> CallPrefix(linePrefix, ElementCallee).Some?
    ensures ctx.ElementPrefix? ==> ctx.prefix == CallPrefix(linePrefix, ElementCallee).value
    ensures ctx == NoPrefix <==>
      (CallPrefix(linePrefix, ElementCallee).None? && CallPrefix(linePrefix, CellCallee).None? &&
       CallPrefix(linePrefix, RenderCallee).None? && CallPrefix(linePrefix, ScriptCallee).None? &&
       CallPrefix(linePrefix, CssCallee).None?)
  {
    var e := CallPrefix(linePrefix, ElementCallee);
    if e.Some? then ElementPrefix(e.value)
    else
      var c := CallPrefix(linePrefix, CellCallee);
      if c.Some? then CellPrefix(c.value)
      else if CallPrefix(linePrefix, RenderCallee).Some? then RenderPrefix
      else
        var s := CallPrefix(linePrefix, ScriptCallee);
        if s.Some? then ScriptPrefix(s.value)
        else
          var k := CallPrefix(linePrefix, CssCallee);
          if k.Some? then CssPrefix(k.value) else NoPrefix
  }

  /** An element call being typed is recognised, whatever precedes it. */
  lemma ClassifyElement(x: string, s1: string, s2: string, q: char, p: string)
    requires AllSpaces(s1) && AllSpaces(s2) && IsQuote(q) && AllNameChars(p)
    ensures Classify(x + ElementCallee + s1 + "(" + s2 + [q] + p) == ElementPrefix(p)
  {
    CallPrefixOf(x, ElementCallee, s1, s2, q, p);
  }

  /** `lineAt(position).text.substr(0, position.character)`. */
  function LinePrefix(text: string, character: nat): (r: string)
    ensures |r| <= character && StartsWith(text, r)
    ensures character <= |text| ==> |r| == character
  {
    if character <= |text| then text[..character] else text
  }

  /** A recognised name never reaches further back than the cursor. */
  lemma ClassifiedPrefixFits(text: string, character: nat)
    ensures var ctx := Classify(LinePrefix(text, character));
      ctx.HasPrefix() ==> |ctx.prefix| <= character
  {
  }

  /** The index a line context queries; `Unknown` for the branches that query none. */
  function ContextType(ctx: LineContext): CompletionType {
    match ctx
    case ElementPrefix(_) => ElementNames
    case CellPrefix(_) => CellNames
    case ScriptPrefix(_) => JsNames
    case CssPrefix(_) => CssNames
    case RenderPrefix | NoPrefix => Unknown
  }

  /** The items `provideCompletionItems` returns inside a workspace. */
  function ItemsFor(elements: ElementMapper.ElementIndex, cells: CellMapper.CellIndex,
                    assets: AssetMapper.AssetIndex, ctx: LineContext, pos: Position): (r: seq<Item>)
    reads elements, cells, assets
    requires ctx.HasPrefix() ==> |ctx.prefix| <= pos.character
    ensures !ctx.HasPrefix() ==> r == []
  {
    match ctx
    case ElementPrefix(p) => MapItems(FindMatchingCompletions(elements, cells, assets, p, ElementNames), Snippet, p, pos)
    case CellPrefix(p) => MapItems(FindMatchingCompletions(elements, cells, assets, p, CellNames), Snippet, p, pos)
    case ScriptPrefix(p) => MapItems(FindMatchingCompletions(elements, cells, assets, p, JsNames), FileItem, p, pos)
    case CssPrefix(p) => MapItems(FindMatchingCompletions(elements, cells, assets, p, CssNames), FileItem, p, pos)
    case RenderPrefix | NoPrefix => []
  }

  /** The labels offered are the keys of the context's index that match the
      typed name, in the index's order. */
  lemma ItemsForLabels(elements: ElementMapper.ElementIndex, cells: CellMapper.CellIndex,
                       assets: AssetMapper.AssetIndex, ctx: LineContext, pos: Position)
    requires ctx.HasPrefix() ==> |ctx.prefix| <= pos.character
    ensures ctx.HasPrefix() ==>
      Labels(ItemsFor(elements, cells, assets, ctx, pos)) ==
      FindMatchingCompletions(elements, cells, assets, ctx.prefix, ContextType(ctx))
  {
    if ctx.HasPrefix() {
      var r := ItemsFor(elements, cells, assets, ctx, pos);
      var m := FindMatchingCompletions(elements, cells, assets, ctx.prefix, ContextType(ctx));
      assert |Labels(r)| == |m|;
      assert forall i :: 0 <= i < |m| ==> Labels(r)[i] == m[i];
    }
  }

  /** Every item offered completes the typed name in place: it inserts the
      rest of its key and its range is empty. */
  lemma ItemsForComplete(elements: ElementMapper.ElementIndex, cells: CellMapper.CellIndex,
                         assets: AssetMapper.AssetIndex, ctx: LineContext, pos: Position, i: nat)
    requires ctx.HasPrefix() ==> |ctx.prefix| <= pos.character
    requires i < |ItemsFor(elements, cells, assets, ctx, pos)|
    ensures var it := ItemsFor(elements, cells, assets, ctx, pos)[i];
      ctx.HasPrefix() && it.rangeStart == pos && it.rangeEnd == pos &&
      Matches(it.name, ctx.prefix) && it.insertText == it.name[|ctx.prefix|..]
  {
    var r := ItemsFor(elements, cells, assets, ctx, pos);
    var m := FindMatchingCompletions(elements, cells, assets, ctx.prefix, ContextType(ctx));
    assert r[i] == ItemFor(m[i], r[i].kind, ctx.prefix, pos);
    assert m[i] in m;
    MatchedItem(m[i], r[i].kind, ctx.prefix, pos);
  }

  // ---------------------------------------------------------------------
  // The provider

  /** `CakePhpCompletionProvider`: its only state is the position of the
      latest request, which places the items' ranges. */
  class Provider {
    var currentPosition: Position

    constructor ()
      ensures currentPosition == Position(0, 0)
    {
      currentPosition := Position(0, 0);
    }

    /** `createCompletionItems(completions, kind, prefix)` at the current position. */
    method CreateCompletionItems(completions: seq<string>, kind: ItemKind, prefix: string) returns (items: seq<Item>)
      requires |prefix| <= currentPosition.character
      ensures items == MapItems(completions, kind, prefix, currentPosition)
    {
      items := [];
      var i := 0;
      while i < |completions|
        invariant 0 <= i <= |completions|
        invariant items == MapItems(completions[..i], kind, prefix, currentPosition)
      {
        var completion := completions[i];
        var cpl := CommonPrefixLength(prefix, completion);
        var insertText := completion[cpl..];
        var item := Item(completion, kind, completion, insertText,
                         Position(currentPosition.line, currentPosition.character - |prefix| + cpl), currentPosition);
        items := items + [item];
        i := i + 1;
      }
      assert completions[..i] == completions;
    }

    /** `provideCompletionItems(document, position)`: `lineText` is the text
        of the cursor's line and `workspaceFolder` is `None` when the
        document is in no workspace folder. */
    method ProvideCompletionItems(elements: ElementMapper.ElementIndex, cells: CellMapper.CellIndex,
                                  assets: AssetMapper.AssetIndex, lineText: string, position: Position,
                                  workspaceFolder: Option<string>)
      returns (items: seq<Item>)
      modifies this
      ensures currentPosition == position
      ensures workspaceFolder.None? ==> items == []
      ensures workspaceFolder.Some? ==>
        items == ItemsFor(elements, cells, assets, Classify(LinePrefix(lineText, position.character)), position)
    {
      currentPosition := position;
      var linePrefix := LinePrefix(lineText, position.character);
      if workspaceFolder.None? {
        return [];
      }
      var ctx := Classify(linePrefix);
      ClassifiedPrefixFits(lineText, position.character);
      items := ItemsAt(elements, cells, assets, ctx);
    }

    /** The `if` chain of `provideCompletionItems` once the line is classified. */
    method ItemsAt(elements: ElementMapper.ElementIndex, cells: CellMapper.CellIndex,
                   assets: AssetMapper.AssetIndex, ctx: LineContext)
      returns (items: seq<Item>)
      requires ctx.HasPrefix() ==> |ctx.prefix| <= currentPosition.character
      ensures items == ItemsFor(elements, cells, assets, ctx, currentPosition)
    {
      items := [];
      match ctx
      case ElementPrefix(p) =>
        var completions := FindMatchingCompletions(elements, cells, assets, p, ElementNames);
        items := CreateCompletionItems(completions, Snippet, p);
      case CellPrefix(p) =>
        var completions := FindMatchingCompletions(elements, cells, assets, p, CellNames);
        items := CreateCompletionItems(completions, Snippet, p);
      case RenderPrefix =>
      case ScriptPrefix(p) =>
        var completions := FindMatchingCompletions(elements, cells, assets, p, JsNames);
        items := CreateCompletionItems(completions, FileItem, p);
      case CssPrefix(p) =>
        var completions := FindMatchingCompletions(elements, cells, assets, p, CssNames);
        items := CreateCompletionItems(completions, FileItem, p);
      case NoPrefix =>
    }
  }
}
