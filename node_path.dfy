/** The part of Node's `path` module the extension uses, for POSIX paths
    (separator `/`): `join`, `basename`, `extname` and `relative`. */
module NodePath {
  import opened Text

  const Sep: char := '/'

  /** `path.join(a, b)`: an empty operand is skipped and exactly one separator
      sits at the seam. */
  function JoinPath(a: string, b: string): (r: string)
    ensures a == "" ==> r == b
    ensures b == "" ==> r == a
    ensures a != "" && b != "" && !EndsWith(a, "/") && !StartsWith(b, "/") ==> r == a + "/" + b
  {
    if a == "" then b
    else if b == "" then a
    else
      var a' := if a[|a| - 1] == Sep then a[..|a| - 1] else a;
      var b' := if b[0] == Sep then b[1..] else b;
      a' + "/" + b'
  }

  /** `path.join` with three, four and five operands. */
  function Join3(a: string, b: string, c: string): string {
    JoinPath(JoinPath(a, b), c)
  }

  function Join4(a: string, b: string, c: string, d: string): string {
    JoinPath(Join3(a, b, c), d)
  }

  function Join5(a: string, b: string, c: string, d: string, e: string): string {
    JoinPath(Join4(a, b, c, d), e)
  }

  /** The non-empty `/`-separated segments of a path. */
  function Segments(p: string): (r: seq<string>)
    ensures forall i :: 0 <= i < |r| ==> r[i] != "" && Sep !in r[i]
  {
    var parts := Split(p, [Sep]);
    SplitPiecesFree(p, Sep);
    NonEmpty(parts)
  }

  function NonEmpty(parts: seq<string>): (r: seq<string>)
    ensures forall i :: 0 <= i < |r| ==> r[i] != "" && r[i] in parts
    decreases |parts|
  {
    if parts == [] then []
    else if parts[0] == "" then NonEmpty(parts[1..])
    else [parts[0]] + NonEmpty(parts[1..])
  }

  /** Index of the last occurrence of `c` in `s`. */
  function LastIndexOf(s: string, c: char): (r: Option<nat>)
    ensures r.Some? ==> r.value < |s| && s[r.value] == c && c !in s[r.value + 1..]
    ensures r.None? ==> c !in s
  {
    if s == [] then None
    else if s[|s| - 1] == c then Some(|s| - 1)
    else
      var r := LastIndexOf(s[..|s| - 1], c);
      assert s == s[..|s| - 1] + [s[|s| - 1]];
      r
  }

  /** The path without one trailing separator (a lone `/` is kept). */
  function DropTrailingSep(p: string): (q: string)
    ensures q == p || (|p| > 1 && p == q + [Sep])
  {
    if |p| > 1 && p[|p| - 1] == Sep then p[..|p| - 1] else p
  }

  /** `path.basename(p)`: the text after the last separator, ignoring one trailing separator. */
  function Basename(p: string): (r: string)
    ensures Sep !in r
  {
    var q := if |p| > 1 && p[|p| - 1] == Sep then p[..|p| - 1] else p;
    match LastIndexOf(q, Sep)
    case None => q
    case Some(i) => q[i + 1..]
  }

  /** `path.extname(p)`: the basename from its last `.` on, or "" when that dot
      is missing or is the basename's first character (and for `..`). */
  function ExtName(p: string): (r: string)
    ensures r == "" || (r[0] == '.' && EndsWith(Basename(p), r) && |r| < |Basename(p)|)
  {
    var b := Basename(p);
    if b == ".." then ""
    else
      match LastIndexOf(b, '.')
      case None => ""
      case Some(i) => if i == 0 then "" else b[i..]
  }

  /** The base name is the last segment: it ends the path (one trailing
      separator dropped) and either is all of it or follows a separator. */
  lemma BasenameLastSegment(p: string)
    ensures EndsWith(DropTrailingSep(p), Basename(p))
    ensures var q := DropTrailingSep(p); var r := Basename(p);
      |r| == |q| || q[|q| - |r| - 1] == Sep
  {
  }

  /** The extension holds the base name's only `.` from that dot on, and is
      there exactly when the base name is not `..` and has a `.` after its first
      character. */
  lemma ExtNameDot(p: string)
    ensures var r := ExtName(p); forall k :: 1 <= k < |r| ==> r[k] != '.'
    ensures var b := Basename(p);
      ExtName(p) != "" <==> b != ".." && |b| > 1 && '.' in b[1..]
  {
    var b := Basename(p);
    LastDotAfterFirst(b);
    match LastIndexOf(b, '.')
    case None =>
    case Some(i) =>
      assert b[i..][1..] == b[i + 1..];
  }

  /** The last `.` of `b` is past its first character exactly when `b[1..]` has a `.`. */
  lemma LastDotAfterFirst(b: string)
    ensures (LastIndexOf(b, '.').Some? && LastIndexOf(b, '.').value > 0) <==> (|b| > 1 && '.' in b[1..])
  {
    match LastIndexOf(b, '.')
    case None =>
    case Some(i) =>
      if i > 0 {
        assert b[1..][i - 1] == '.';
      } else {
        assert b[1..] == b[i + 1..];
      }
  }

  /** `path.relative(from, to)` for absolute paths: up to the common
      ancestor with `..`, then down along `to`. */
  function Relative(from: string, to: string): string {
    var f := Segments(from);
    var t := Segments(to);
    var c := CommonPrefix(f, t);
    Join(Ups(|f| - c) + t[c..], [Sep])
  }

  function Ups(n: nat): (r: seq<string>)
    ensures |r| == n && forall i :: 0 <= i < n ==> r[i] == ".."
  {
    if n == 0 then [] else Ups(n - 1) + [".."]
  }

  /** Length of the longest common prefix of two segment lists. */
  function CommonPrefix(a: seq<string>, b: seq<string>): (c: nat)
    ensures c <= |a| && c <= |b| && a[..c] == b[..c]
    ensures c < |a| && c < |b| ==> a[c] != b[c]
  {
    if a == [] || b == [] || a[0] != b[0] then 0
    else
      var c := CommonPrefix(a[1..], b[1..]);
      assert a[..c + 1] == [a[0]] + a[1..][..c];
      assert b[..c + 1] == [b[0]] + b[1..][..c];
      c + 1
  }

  /** A path below `from` is shown as the segments that follow it. */
  lemma RelativeBelow(from: string, to: string, rest: seq<string>)
    requires Segments(to) == Segments(from) + rest
    ensures Relative(from, to) == Join(rest, [Sep])
  {
    var f := Segments(from);
    var t := Segments(to);
    var c := CommonPrefix(f, t);
    assert forall i :: 0 <= i < |f| ==> t[i] == f[i];
    assert c == |f|;
    assert Ups(0) == [];
    assert Ups(|f| - c) + t[c..] == rest;
  }

  lemma {:induction false} NonEmptyConcat(x: seq<string>, y: seq<string>)
    ensures NonEmpty(x + y) == NonEmpty(x) + NonEmpty(y)
    decreases |x|
  {
    if x == [] {
      assert x + y == y;
    } else {
      assert (x + y)[0] == x[0] && (x + y)[1..] == x[1..] + y;
      NonEmptyConcat(x[1..], y);
    }
  }

  lemma {:induction false} NonEmptyAll(x: seq<string>)
    requires forall i :: 0 <= i < |x| ==> x[i] != ""
    ensures NonEmpty(x) == x
    decreases |x|
  {
    if x != [] {
      NonEmptyAll(x[1..]);
      assert x == [x[0]] + x[1..];
    }
  }

  /** A relative path made of non-empty segments: no leading, trailing or doubled separator. */
  predicate Clean(rel: string) {
    rel != "" && forall i :: 0 <= i < |Split(rel, [Sep])| ==> Split(rel, [Sep])[i] != ""
  }

  lemma SegmentsJoin(a: string, b: string)
    requires a != "" && b != "" && !EndsWith(a, "/") && !StartsWith(b, "/")
    ensures Segments(JoinPath(a, b)) == Segments(a) + Segments(b)
  {
    assert a[|a| - 1..] == [a[|a| - 1]] && b[..1] == [b[0]];
    assert JoinPath(a, b) == a + [Sep] + b;
    SplitAround(a, b, Sep);
    NonEmptyConcat(Split(a, [Sep]), Split(b, [Sep]));
  }

  /** The first piece of a split is empty exactly when the string starts with the separator. */
  lemma FirstPiece(s: string, c: char)
    requires s != []
    ensures Split(s, [c])[0] == [] <==> s[0] == c
  {
    assert s[0..1] == [s[0]];
    match IndexOf(s, [c])
    case None =>
      assert !OccursAt(s, [c], 0);
    case Some(i) =>
      if i == 0 {
        assert s[0..1] == [c];
      } else {
        assert !OccursAt(s, [c], 0);
        assert |s[..i]| > 0;
      }
  }

  /** `path.relative(root, path.join(root, rel))` gives `rel` back. */
  lemma RelativeJoin(root: string, rel: string)
    requires root != "" && !EndsWith(root, "/") && Clean(rel)
    ensures Relative(root, JoinPath(root, rel)) == rel
  {
    var parts := Split(rel, [Sep]);
    FirstPiece(rel, Sep);
    assert rel[..1] == [rel[0]];
    SegmentsJoin(root, rel);
    NonEmptyAll(parts);
    RelativeBelow(root, JoinPath(root, rel), Segments(rel));
    JoinSplit(rel, [Sep]);
  }
}
