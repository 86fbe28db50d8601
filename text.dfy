/** String and sequence primitives shared by the whole model: ASCII case
    mapping, the JavaScript string operations the extension relies on
    (`startsWith`, `includes`, `indexOf`, `split`, `join`, `replace`, `trim`),
    de-duplication and a stable lexicographic sort. */
module Text {

  datatype Option<T> = None | Some(value: T)

  /** JavaScript truthiness of a `string | null` value: `null` and `""` are falsy. */
  predicate Truthy(o: Option<string>) {
    o.Some? && o.value != ""
  }

  /** JavaScript `a || b` on two `string | null` values. */
  function OrElse(a: Option<string>, b: Option<string>): Option<string> {
    if Truthy(a) then a else b
  }

  // ---------------------------------------------------------------------
  // Characters (ASCII only: `toLowerCase` is not modelled beyond A-Z)

  predicate IsUpper(c: char) { 'A' <= c <= 'Z' }

  predicate IsLowerLetter(c: char) { 'a' <= c <= 'z' }

  /** The regular-expression class `\w`. */
  predicate IsWordChar(c: char) {
    IsUpper(c) || IsLowerLetter(c) || '0' <= c <= '9' || c == '_'
  }

  /** The whitespace removed by `trim` and matched by `\s` (ASCII part). */
  predicate IsSpace(c: char) {
    c == ' ' || c == '\t' || c == '\n' || c == '\r' || c == '\U{000B}' || c == '\U{000C}'
  }

  function ToLowerChar(c: char): char {
    if IsUpper(c) then (c as int + 32) as char else c
  }

  function ToUpperChar(c: char): char {
    if IsLowerLetter(c) then (c as int - 32) as char else c
  }

  function Lower(s: string): (r: string)
    ensures |r| == |s|
    ensures forall i :: 0 <= i < |s| ==> r[i] == ToLowerChar(s[i])
  {
    seq(|s|, i requires 0 <= i < |s| => ToLowerChar(s[i]))
  }

  lemma LowerConcat(a: string, b: string)
    ensures Lower(a + b) == Lower(a) + Lower(b)
  {
  }

  // ---------------------------------------------------------------------
  // Prefixes, suffixes, occurrences

  predicate StartsWith(s: string, p: string) {
    |p| <= |s| && s[..|p|] == p
  }

  predicate EndsWith(s: string, p: string) {
    |p| <= |s| && s[|s| - |p|..] == p
  }

  /** `sub` occurs in `s` at index `j`. */
  predicate OccursAt(s: string, sub: string, j: nat) {
    j + |sub| <= |s| && s[j..j + |sub|] == sub
  }

  /** `s.indexOf(sub, from)`: the first occurrence at or after `from`. */
  function IndexOfFrom(s: string, sub: string, from: nat): (r: Option<nat>)
    ensures r.Some? ==> from <= r.value && OccursAt(s, sub, r.value)
    ensures r.Some? ==> forall j :: from <= j < r.value ==> !OccursAt(s, sub, j)
    ensures r.None? ==> forall j :: from <= j ==> !OccursAt(s, sub, j)
    decreases |s| - from
  {
    if from + |sub| > |s| then None
    else if s[from..from + |sub|] == sub then Some(from)
    else IndexOfFrom(s, sub, from + 1)
  }

  function IndexOf(s: string, sub: string): Option<nat> {
    IndexOfFrom(s, sub, 0)
  }

  /** The first occurrence of `sub` is the one `IndexOf` finds. */
  lemma IndexOfFirst(s: string, sub: string, k: nat)
    requires OccursAt(s, sub, k)
    requires forall j :: 0 <= j < k ==> !OccursAt(s, sub, j)
    ensures IndexOf(s, sub) == Some(k)
  {
  }

  /** `s.includes(sub)`. */
  predicate Contains(s: string, sub: string) {
    IndexOf(s, sub).Some?
  }

  lemma ContainsAt(s: string, sub: string, j: nat)
    requires OccursAt(s, sub, j)
    ensures Contains(s, sub)
  {
  }

  // ---------------------------------------------------------------------
  // split / join

  /** `s.split(sep)` for a non-empty separator: never empty, pieces in order. */
  function Split(s: string, sep: string): (r: seq<string>)
    requires sep != []
    ensures |r| >= 1
    decreases |s|
  {
    match IndexOf(s, sep)
    case None => [s]
    case Some(i) => [s[..i]] + Split(s[i + |sep|..], sep)
  }

  /** `parts.join(sep)`. */
  function Join(parts: seq<string>, sep: string): string {
    if |parts| == 0 then ""
    else if |parts| == 1 then parts[0]
    else parts[0] + sep + Join(parts[1..], sep)
  }

  lemma {:induction false} JoinSplit(s: string, sep: string)
    requires sep != []
    ensures Join(Split(s, sep), sep) == s
    decreases |s|
  {
    match IndexOf(s, sep)
    case None =>
    case Some(i) =>
      var rest := s[i + |sep|..];
      var parts := Split(s, sep);
      assert parts == [s[..i]] + Split(rest, sep);
      assert parts[0] == s[..i] && parts[1..] == Split(rest, sep);
      JoinSplit(rest, sep);
      assert Join(parts, sep) == s[..i] + sep + rest;
      assert s == s[..i] + sep + rest;
  }

  lemma SplitWithout(s: string, sep: string)
    requires sep != [] && !Contains(s, sep)
    ensures Split(s, sep) == [s]
  {
  }

  /** For a one-character separator the pieces never contain it. */
  lemma {:induction false} SplitPiecesFree(s: string, c: char)
    ensures forall k :: 0 <= k < |Split(s, [c])| ==> c !in Split(s, [c])[k]
    decreases |s|
  {
    match IndexOf(s, [c])
    case None =>
      forall j | 0 <= j < |s| ensures s[j] != c {
        assert !OccursAt(s, [c], j) && s[j..j + 1] == [s[j]];
      }
    case Some(i) =>
      SplitPiecesFree(s[i + 1..], c);
      forall j | 0 <= j < i ensures s[j] != c {
        assert !OccursAt(s, [c], j) && s[j..j + 1] == [s[j]];
      }
  }

  /** Joining pieces that contain no one-character separator and splitting again gives them back. */
  lemma {:induction false} SplitJoin(parts: seq<string>, c: char)
    requires |parts| >= 1
    requires forall k :: 0 <= k < |parts| ==> c !in parts[k]
    ensures Split(Join(parts, [c]), [c]) == parts
    decreases |parts|
  {
    var p := parts[0];
    NoCharNoOccurrence(p, c);
    if |parts| == 1 {
      SplitWithout(p, [c]);
    } else {
      var rest := Join(parts[1..], [c]);
      var s := p + [c] + rest;
      assert s == Join(parts, [c]);
      assert OccursAt(s, [c], |p|);
      forall j | 0 <= j < |p| ensures !OccursAt(s, [c], j) {
        assert s[j] == p[j];
      }
      assert IndexOf(s, [c]) == Some(|p|);
      assert s[..|p|] == p;
      assert s[|p| + 1..] == rest;
      SplitJoin(parts[1..], c);
    }
  }

  /** Splitting on a one-character separator distributes over a separator between two strings. */
  lemma {:induction false} SplitAround(a: string, b: string, c: char)
    ensures Split(a + [c] + b, [c]) == Split(a, [c]) + Split(b, [c])
    decreases |a|
  {
    var s := a + [c] + b;
    match IndexOf(a, [c])
    case None =>
      forall j | 0 <= j < |a| ensures !OccursAt(s, [c], j) {
        assert !OccursAt(a, [c], j) && a[j..j + 1] == [a[j]] && s[j] == a[j];
        assert s[j..j + 1] == [s[j]];
      }
      assert s[|a|..|a| + 1] == [c];
      IndexOfFirst(s, [c], |a|);
      SplitAt(s, [c], |a|);
      assert s[..|a|] == a && s[|a| + 1..] == b;
    case Some(i) =>
      assert a[i..i + 1] == [c];
      forall j | 0 <= j < i ensures !OccursAt(s, [c], j) {
        assert !OccursAt(a, [c], j) && a[j..j + 1] == [a[j]] && s[j] == a[j];
        assert s[j..j + 1] == [s[j]];
      }
      assert s[i..i + 1] == [c];
      IndexOfFirst(s, [c], i);
      SplitAt(s, [c], i);
      SplitAt(a, [c], i);
      assert s[..i] == a[..i];
      assert s[i + 1..] == a[i + 1..] + [c] + b;
      SplitAround(a[i + 1..], b, c);
      SeqAssoc([a[..i]], Split(a[i + 1..], [c]), Split(b, [c]));
  }

  /** `split` at the first occurrence of its separator. */
  lemma SplitAt(s: string, sep: string, i: nat)
    requires sep != [] && IndexOf(s, sep) == Some(i)
    ensures Split(s, sep) == [s[..i]] + Split(s[i + |sep|..], sep)
  {
  }

  lemma SeqAssoc<T>(a: seq<T>, b: seq<T>, c: seq<T>)
    ensures a + (b + c) == (a + b) + c
  {
  }

  lemma ConsConcat<T>(a: seq<T>, b: seq<T>)
    requires a != []
    ensures (a + b)[0] == a[0] && (a + b)[1..] == a[1..] + b
  {
  }

  lemma NoCharNoOccurrence(s: string, c: char)
    requires c !in s
    ensures !Contains(s, [c])
  {
    forall j: nat | j + 1 <= |s| ensures !OccursAt(s, [c], j) {
      assert s[j..j + 1] == [s[j]];
    }
  }

  lemma CharOccurrence(s: string, c: char)
    ensures Contains(s, [c]) <==> c in s
  {
    if c in s {
      var j :| 0 <= j < |s| && s[j] == c;
      assert OccursAt(s, [c], j);
    } else {
      NoCharNoOccurrence(s, c);
    }
  }

  lemma {:induction false} JoinConcat(a: seq<string>, b: seq<string>, sep: string)
    requires |a| >= 1 && |b| >= 1
    ensures Join(a + b, sep) == Join(a, sep) + sep + Join(b, sep)
    decreases |a|
  {
    if |a| == 1 {
      assert a + b == [a[0]] + b;
      assert (a + b)[1..] == b;
    } else {
      assert (a + b)[1..] == a[1..] + b;
      JoinConcat(a[1..], b, sep);
    }
  }

  // ---------------------------------------------------------------------
  // replace

  /** `s.replace(/x/g, y)` for single characters. */
  function ReplaceAll(s: string, x: char, y: char): (r: string)
    ensures |r| == |s|
    ensures forall i :: 0 <= i < |s| ==> r[i] == if s[i] == x then y else s[i]
  {
    seq(|s|, i requires 0 <= i < |s| => if s[i] == x then y else s[i])
  }

  /** `s.replace(x, y)` with a one-character string pattern: only the first occurrence. */
  function ReplaceFirst(s: string, x: char, y: char): string {
    match IndexOf(s, [x])
    case None => s
    case Some(i) => s[..i] + [y] + s[i + 1..]
  }

  // ---------------------------------------------------------------------
  // trim

  function TrimStart(s: string): (r: string)
    ensures |r| <= |s| && r == s[|s| - |r|..]
    ensures r == [] || !IsSpace(r[0])
  {
    if s != [] && IsSpace(s[0]) then TrimStart(s[1..]) else s
  }

  function TrimEnd(s: string): (r: string)
    ensures |r| <= |s| && r == s[..|r|]
    ensures r == [] || !IsSpace(r[|r| - 1])
  {
    if s != [] && IsSpace(s[|s| - 1]) then TrimEnd(s[..|s| - 1]) else s
  }

  function Trim(s: string): string {
    TrimEnd(TrimStart(s))
  }

  // ---------------------------------------------------------------------
  // Slicing with negative ends

  /** `s.slice(0, -n)`: for `n == 0` JavaScript reads `-0` as `0` and returns "". */
  function DropLast(s: string, n: nat): (r: string)
    ensures 0 < n <= |s| ==> r == s[..|s| - n]
    ensures n == 0 || n >= |s| ==> r == ""
  {
    if n == 0 || n >= |s| then "" else s[..|s| - n]
  }

  // ---------------------------------------------------------------------
  // Distinct elements (`Array.from(new Set(xs))`)

  predicate NoDuplicates<T(==)>(s: seq<T>) {
    forall i, j :: 0 <= i < j < |s| ==> s[i] != s[j]
  }

  /** Keeps the first occurrence of every element, in order. */
  function Distinct(s: seq<string>): (r: seq<string>)
    ensures NoDuplicates(r)
    ensures forall x :: x in r <==> x in s
    ensures |r| <= |s|
  {
    if s == [] then []
    else
      var d := Distinct(s[..|s| - 1]);
      var x := s[|s| - 1];
      assert s == s[..|s| - 1] + [x];
      if x in d then d else d + [x]
  }

  /** Applying an injective function commutes with removing duplicates. */
  lemma {:induction false} DistinctMapInjective(s: seq<string>, p: string)
    ensures Distinct(PrefixAll(p, s)) == PrefixAll(p, Distinct(s))
    decreases |s|
  {
    if s != [] {
      var init := s[..|s| - 1];
      var x := s[|s| - 1];
      PrefixAllInit(p, s);
      DistinctSnoc(PrefixAll(p, s));
      DistinctSnoc(s);
      DistinctMapInjective(init, p);
      var d := Distinct(init);
      PrefixAllIn(p, d, x);
      if x !in d {
        PrefixAllSnoc(p, d, x);
      }
    }
  }

  lemma DistinctSnoc(s: seq<string>)
    requires s != []
    ensures var d := Distinct(s[..|s| - 1]);
      Distinct(s) == if s[|s| - 1] in d then d else d + [s[|s| - 1]]
  {
  }

  lemma PrefixAllInit(p: string, s: seq<string>)
    requires s != []
    ensures PrefixAll(p, s)[..|s| - 1] == PrefixAll(p, s[..|s| - 1])
    ensures PrefixAll(p, s)[|s| - 1] == p + s[|s| - 1]
  {
  }

  lemma PrefixAllSnoc(p: string, d: seq<string>, x: string)
    ensures PrefixAll(p, d + [x]) == PrefixAll(p, d) + [p + x]
  {
  }

  /** Prefixing is injective. */
  lemma PrefixAllIn(p: string, d: seq<string>, x: string)
    ensures p + x in PrefixAll(p, d) <==> x in d
  {
    if x in d {
      var k :| 0 <= k < |d| && d[k] == x;
      assert PrefixAll(p, d)[k] == p + x;
    } else {
      forall k | 0 <= k < |d| ensures PrefixAll(p, d)[k] != p + x {
        assert (p + d[k])[|p|..] == d[k];
        assert (p + x)[|p|..] == x;
      }
    }
  }

  /** Every element prefixed with `p`. */
  function PrefixAll(p: string, s: seq<string>): (r: seq<string>)
    ensures |r| == |s|
    ensures forall i :: 0 <= i < |s| ==> r[i] == p + s[i]
  {
    seq(|s|, i requires 0 <= i < |s| => p + s[i])
  }

  /** The strings behind a prefix are exactly the strings it was put before. */
  lemma PrefixAllMember(p: string, s: seq<string>)
    ensures forall k :: k in PrefixAll(p, s) <==> StartsWith(k, p) && k[|p|..] in s
  {
    var r := PrefixAll(p, s);
    forall k | k in r
      ensures StartsWith(k, p) && k[|p|..] in s
    {
      var i :| 0 <= i < |r| && r[i] == k;
      assert k[..|p|] == p && k[|p|..] == s[i];
    }
    forall k | StartsWith(k, p) && k[|p|..] in s
      ensures k in r
    {
      var i :| 0 <= i < |s| && s[i] == k[|p|..];
      assert k == p + k[|p|..];
      assert r[i] == k;
    }
  }

  // ---------------------------------------------------------------------
  // Lexicographic order and a stable insertion sort

  /** Lexicographic order on character codes (stands for `localeCompare`). */
  predicate Le(a: string, b: string) {
    a == [] || (b != [] && (a[0] < b[0] || (a[0] == b[0] && Le(a[1..], b[1..]))))
  }

  lemma {:induction false} LeTotal(a: string, b: string)
    ensures Le(a, b) || Le(b, a)
  {
    if a != [] && b != [] && a[0] == b[0] {
      LeTotal(a[1..], b[1..]);
    }
  }

  lemma {:induction false} LeTransitive(a: string, b: string, c: string)
    requires Le(a, b) && Le(b, c)
    ensures Le(a, c)
  {
    if a != [] && b != [] && c != [] && a[0] == b[0] == c[0] {
      LeTransitive(a[1..], b[1..], c[1..]);
    }
  }

  lemma {:induction false} LeAntisymmetric(a: string, b: string)
    requires Le(a, b) && Le(b, a)
    ensures a == b
  {
    if a != [] && b != [] {
      LeAntisymmetric(a[1..], b[1..]);
      assert a == [a[0]] + a[1..] && b == [b[0]] + b[1..];
    }
  }

  predicate SortedBy<T>(s: seq<T>, key: T -> string) {
    forall i, j :: 0 <= i < j < |s| ==> Le(key(s[i]), key(s[j]))
  }

  /** Inserts `x` before the first element whose key is not below it. */
  function InsertBy<T(==)>(x: T, s: seq<T>, key: T -> string): (r: seq<T>)
    requires SortedBy(s, key)
    ensures SortedBy(r, key)
    ensures multiset(r) == multiset(s) + multiset{x}
  {
    if s == [] then [x]
    else if Le(key(x), key(s[0])) then
      InsertFrontSorted(x, s, key);
      [x] + s
    else
      var t := InsertBy(x, s[1..], key);
      InsertLaterSorted(x, s, t, key);
      [s[0]] + t
  }

  lemma InsertFrontSorted<T>(x: T, s: seq<T>, key: T -> string)
    requires SortedBy(s, key) && s != [] && Le(key(x), key(s[0]))
    ensures SortedBy([x] + s, key)
  {
    forall j | 0 <= j < |s| ensures Le(key(x), key(s[j])) {
      if j > 0 { LeTransitive(key(x), key(s[0]), key(s[j])); }
    }
    var r := [x] + s;
    forall i, j | 0 <= i < j < |r| ensures Le(key(r[i]), key(r[j])) {
      assert r[j] == s[j - 1];
      if i > 0 { assert r[i] == s[i - 1]; }
    }
  }

  lemma InsertLaterSorted<T>(x: T, s: seq<T>, t: seq<T>, key: T -> string)
    requires SortedBy(s, key) && s != [] && !Le(key(x), key(s[0]))
    requires SortedBy(t, key) && multiset(t) == multiset(s[1..]) + multiset{x}
    ensures SortedBy([s[0]] + t, key)
    ensures multiset([s[0]] + t) == multiset(s) + multiset{x}
  {
    LeTotal(key(x), key(s[0]));
    assert s == [s[0]] + s[1..];
    forall j | 0 <= j < |t| ensures Le(key(s[0]), key(t[j])) {
      var y := t[j];
      assert y in multiset(t);
      if y != x {
        assert y in multiset(s[1..]);
        var k :| 0 <= k < |s[1..]| && s[1..][k] == y;
        assert s[k + 1] == y;
      }
    }
    var r := [s[0]] + t;
    forall i, j | 0 <= i < j < |r| ensures Le(key(r[i]), key(r[j])) {
      assert r[j] == t[j - 1];
      if i > 0 { assert r[i] == t[i - 1]; }
    }
  }

  /** A stable sort by `key` (JavaScript's `Array.prototype.sort` is stable). */
  function SortBy<T(==)>(s: seq<T>, key: T -> string): (r: seq<T>)
    ensures SortedBy(r, key)
    ensures multiset(r) == multiset(s)
    ensures |r| == |s|
  {
    if s == [] then []
    else
      assert s == [s[0]] + s[1..];
      var r := InsertBy(s[0], SortBy(s[1..], key), key);
      assert |r| == |multiset(r)|;
      r
  }

  /** `strings.sort((a, b) => a.localeCompare(b))`. */
  function SortStrings(s: seq<string>): (r: seq<string>)
    ensures forall i, j :: 0 <= i < j < |r| ==> Le(r[i], r[j])
    ensures multiset(r) == multiset(s)
  {
    SortBy(s, (x: string) => x)
  }

  lemma {:induction false} InsertByNoDuplicates<T>(x: T, s: seq<T>, key: T -> string)
    requires SortedBy(s, key) && NoDuplicates(s) && x !in s
    ensures NoDuplicates(InsertBy(x, s, key))
  {
    if s != [] && !Le(key(x), key(s[0])) {
      InsertByNoDuplicates(x, s[1..], key);
      var t := InsertBy(x, s[1..], key);
      forall j | 0 <= j < |t| ensures t[j] != s[0] {
        assert t[j] in multiset(t);
        assert t[j] in multiset(s[1..]) || t[j] == x;
      }
    }
  }

  lemma {:induction false} SortByNoDuplicates<T>(s: seq<T>, key: T -> string)
    requires NoDuplicates(s)
    ensures NoDuplicates(SortBy(s, key))
  {
    if s != [] {
      SortByNoDuplicates(s[1..], key);
      var t := SortBy(s[1..], key);
      assert s[0] !in multiset(s[1..]);
      assert s[0] !in multiset(t);
      InsertByNoDuplicates(s[0], t, key);
    }
  }
}
