/** CakePHP naming conventions: `underscore`, `pluralize`, `singularize`,
    `camelize` and `variableCamelize`. */
module StringUtils {
  import opened Text

  function CountUpper(s: string): nat {
    if s == [] then 0 else (if IsUpper(s[0]) then 1 else 0) + CountUpper(s[1..])
  }

  predicate NoUpper(s: string) {
    forall i :: 0 <= i < |s| ==> !IsUpper(s[i])
  }

  /** `str.replace(/([A-Z])/g, $1 => "_" + $1.toLowerCase())`. */
  function Underscore(s: string): (r: string)
    ensures |r| == |s| + CountUpper(s)
    ensures NoUpper(r)
  {
    if s == [] then []
    else (if IsUpper(s[0]) then ['_', ToLowerChar(s[0])] else [s[0]]) + Underscore(s[1..])
  }

  /** A string without capitals is left alone. */
  lemma {:induction false} UnderscoreNoUpper(s: string)
    requires NoUpper(s)
    ensures Underscore(s) == s
  {
    if s != [] {
      UnderscoreNoUpper(s[1..]);
      assert s == [s[0]] + s[1..];
    }
  }

  lemma UnderscoreIdempotent(s: string)
    ensures Underscore(Underscore(s)) == Underscore(s)
  {
    UnderscoreNoUpper(Underscore(s));
  }

  lemma {:induction false} UnderscoreConcat(a: string, b: string)
    ensures Underscore(a + b) == Underscore(a) + Underscore(b)
  {
    if a == [] {
      assert a + b == b;
    } else {
      assert (a + b)[0] == a[0] && (a + b)[1..] == a[1..] + b;
      UnderscoreConcat(a[1..], b);
    }
  }

  // ---------------------------------------------------------------------
  // plural and singular

  function Pluralize(s: string): (r: string)
    ensures EndsWith(s, "y") ==> r == s[..|s| - 1] + "ies"
    ensures !EndsWith(s, "y") && EndsWith(s, "s") ==> r == s + "es"
    ensures !EndsWith(s, "y") && !EndsWith(s, "s") ==> r == s + "s"
  {
    if EndsWith(s, "y") then DropLast(s, 1) + "ies"
    else if EndsWith(s, "s") then s + "es"
    else s + "s"
  }

  function Singularize(s: string): (r: string)
    ensures EndsWith(s, "ies") ==> r == s[..|s| - 3] + "y"
    ensures !EndsWith(s, "ies") && EndsWith(s, "es") ==> r == s[..|s| - 2]
    ensures !EndsWith(s, "es") && EndsWith(s, "s") ==> r == s[..|s| - 1]
    ensures !EndsWith(s, "s") ==> r == s
    ensures |r| <= |s|
  {
    if EndsWith(s, "ies") then DropLast(s, 3) + "y"
    else if EndsWith(s, "es") then DropLast(s, 2)
    else if EndsWith(s, "s") then DropLast(s, 1)
    else s
  }

  lemma EndsWithConcat(s: string, t: string, k: nat)
    requires k <= |t|
    ensures EndsWith(s + t, t[|t| - k..])
  {
    assert (s + t)[|s + t| - k..] == t[|t| - k..];
  }

  /** The two rules invert each other exactly on words that do not end in
      `e`: `"house"` pluralizes to `"houses"`, which singularizes to `"hous"`. */
  lemma SingularizePluralize(w: string)
    ensures Singularize(Pluralize(w)) == w <==> !EndsWith(w, "e")
  {
    if EndsWith(w, "y") {
      PluralizeY(w);
    } else if EndsWith(w, "s") {
      PluralizeS(w);
    } else {
      PluralizeOther(w);
    }
  }

  lemma PluralizeY(w: string)
    requires EndsWith(w, "y")
    ensures Singularize(Pluralize(w)) == w && !EndsWith(w, "e")
  {
    var stem := w[..|w| - 1];
    var p := stem + "ies";
    assert Pluralize(w) == p;
    EndsWithConcat(stem, "ies", 3);
    assert p[..|p| - 3] == stem;
    assert w == stem + "y";
  }

  lemma PluralizeS(w: string)
    requires !EndsWith(w, "y") && EndsWith(w, "s")
    ensures Singularize(Pluralize(w)) == w && !EndsWith(w, "e")
  {
    var p := w + "es";
    assert Pluralize(w) == p;
    EndsWithConcat(w, "es", 2);
    assert p[|p| - 3] == 's';
    assert !EndsWith(p, "ies");
    assert p[..|p| - 2] == w;
  }

  lemma PluralizeOther(w: string)
    requires !EndsWith(w, "y") && !EndsWith(w, "s")
    ensures Singularize(Pluralize(w)) == w <==> !EndsWith(w, "e")
  {
    assert Pluralize(w) == w + "s";
    if EndsWith(w, "e") {
      PluralizeE(w);
    } else {
      PluralizeNotE(w);
    }
  }

  lemma PluralizeE(w: string)
    requires EndsWith(w, "e")
    ensures Singularize(w + "s") != w
  {
    var p := w + "s";
    assert p[|p| - 2..] == [w[|w| - 1], 's'];
    assert EndsWith(p, "es");
    var r := Singularize(p);
    if EndsWith(p, "ies") {
      assert r == p[..|p| - 3] + "y";
      assert r[|r| - 1] != w[|w| - 1];
    } else {
      assert r == p[..|p| - 2];
    }
  }

  lemma PluralizeNotE(w: string)
    requires !EndsWith(w, "e") && !EndsWith(w, "s")
    ensures Singularize(w + "s") == w
  {
    var p := w + "s";
    assert EndsWith(p, "s") by { assert p[|p| - 1..] == "s"; }
    if |p| >= 2 {
      assert p[|p| - 2..] == [w[|w| - 1], 's'];
    }
    assert !EndsWith(p, "es");
    assert !EndsWith(p, "ies");
    assert p[..|p| - 1] == w;
  }

  // ---------------------------------------------------------------------
  // camel case

  /** `str.replace(/[-_](\w)/g, f)`: left to right, without overlap, each
      separator followed by a word character is replaced by `f(c, offset)`,
      where `offset` is the position of the separator in the whole string. */
  function SeparatorReplace(s: string, at: nat, f: (char, nat) -> char): (r: string)
    ensures |r| <= |s| && (r == [] <==> s == [])
    ensures s != [] ==> r[0] == if MatchesAtStart(s) then f(s[1], at) else s[0]
    decreases |s|
  {
    if |s| >= 2 && IsSeparator(s[0]) && IsWordChar(s[1]) then [f(s[1], at)] + SeparatorReplace(s[2..], at + 2, f)
    else if s == [] then []
    else [s[0]] + SeparatorReplace(s[1..], at + 1, f)
  }

  predicate IsSeparator(c: char) { c == '-' || c == '_' }

  /** The regular expression `[-_](\w)` matches at the start of `s`. */
  predicate MatchesAtStart(s: string) {
    |s| >= 2 && IsSeparator(s[0]) && IsWordChar(s[1])
  }

  function Camelize(s: string): (r: string)
    ensures |r| <= |s| && (r == [] <==> s == [])
    ensures MatchesAtStart(s) ==> r[0] == ToUpperChar(s[1])
    ensures !MatchesAtStart(s) && s != [] ==> r[0] == s[0]
  {
    SeparatorReplace(s, 0, (c: char, i: nat) => ToUpperChar(c))
  }

  function VariableCamelize(s: string): (r: string)
    ensures |r| <= |s| && (r == [] <==> s == [])
    ensures MatchesAtStart(s) ==> r[0] == ToLowerChar(s[1])
    ensures !MatchesAtStart(s) && s != [] ==> r[0] == s[0]
  {
    SeparatorReplace(s, 0, (c: char, i: nat) => if i == 0 then ToLowerChar(c) else ToUpperChar(c))
  }

  /** Two callbacks that agree from offset `at` on give the same result. */
  lemma {:induction false} SeparatorReplaceAgree(s: string, at: nat, f: (char, nat) -> char, g: (char, nat) -> char)
    requires forall c: char, i: nat :: i >= at ==> f(c, i) == g(c, i)
    ensures SeparatorReplace(s, at, f) == SeparatorReplace(s, at, g)
    decreases |s|
  {
    if MatchesAtStart(s) {
      SeparatorReplaceAgree(s[2..], at + 2, f, g);
    } else if s != [] {
      SeparatorReplaceAgree(s[1..], at + 1, f, g);
    }
  }

  /** A callback that ignores the offset gives the same result from any starting offset. */
  lemma {:induction false} SeparatorReplaceShift(s: string, a: nat, b: nat, f: (char, nat) -> char)
    requires forall c: char, i: nat, j: nat :: f(c, i) == f(c, j)
    ensures SeparatorReplace(s, a, f) == SeparatorReplace(s, b, f)
    decreases |s|
  {
    if MatchesAtStart(s) {
      SeparatorReplaceShift(s[2..], a + 2, b + 2, f);
    } else if s != [] {
      SeparatorReplaceShift(s[1..], a + 1, b + 1, f);
    }
  }

  /** `camelize` removes every matched separator and capitalizes the character after it. */
  lemma CamelizeStep(s: string)
    ensures MatchesAtStart(s) ==> Camelize(s) == [ToUpperChar(s[1])] + Camelize(s[2..])
    ensures !MatchesAtStart(s) && s != [] ==> Camelize(s) == [s[0]] + Camelize(s[1..])
  {
    var f := (c: char, i: nat) => ToUpperChar(c);
    if MatchesAtStart(s) {
      SeparatorReplaceShift(s[2..], 2, 0, f);
    } else if s != [] {
      SeparatorReplaceShift(s[1..], 1, 0, f);
    }
  }

  /** `variableCamelize` is `camelize` except that a match at offset 0 lower-cases its character. */
  lemma VariableCamelizeIsCamelize(s: string)
    ensures MatchesAtStart(s) ==> VariableCamelize(s) == [ToLowerChar(s[1])] + Camelize(s[2..])
    ensures !MatchesAtStart(s) && s != [] ==> VariableCamelize(s) == [s[0]] + Camelize(s[1..])
    ensures s == [] ==> VariableCamelize(s) == []
  {
    var f := (c: char, i: nat) => if i == 0 then ToLowerChar(c) else ToUpperChar(c);
    var g := (c: char, i: nat) => ToUpperChar(c);
    if MatchesAtStart(s) {
      SeparatorReplaceAgree(s[2..], 2, f, g);
      SeparatorReplaceShift(s[2..], 2, 0, g);
    } else if s != [] {
      SeparatorReplaceAgree(s[1..], 1, f, g);
      SeparatorReplaceShift(s[1..], 1, 0, g);
    }
  }

  /** A string without separators is left alone. */
  lemma {:induction false} CamelizeNoSeparator(s: string)
    requires forall i :: 0 <= i < |s| ==> !IsSeparator(s[i])
    ensures Camelize(s) == s
    decreases |s|
  {
    if s != [] {
      CamelizeStep(s);
      CamelizeNoSeparator(s[1..]);
      assert s == [s[0]] + s[1..];
    }
  }

  /** A trailing `-` is never consumed: it is not a word character. */
  lemma {:induction false} CamelizeTrailingDash(s: string)
    ensures Camelize(s + "-") == Camelize(s) + "-"
    decreases |s|
  {
    var t := s + "-";
    CamelizeStep(t);
    if s == [] {
      assert !MatchesAtStart(t);
      CamelizeStep("");
    } else if MatchesAtStart(s) {
      assert MatchesAtStart(t) && t[2..] == s[2..] + "-";
      CamelizeStep(s);
      CamelizeTrailingDash(s[2..]);
    } else if |s| == 1 {
      assert !MatchesAtStart(t) && t[1..] == "-";
      CamelizeStep(s);
      CamelizeStep("-");
      CamelizeStep("");
      assert s[1..] == "";
    } else {
      assert !MatchesAtStart(t) && t[1..] == s[1..] + "-";
      CamelizeStep(s);
      CamelizeTrailingDash(s[1..]);
    }
  }

  predicate NoSeparator(s: string) {
    forall i :: 0 <= i < |s| ==> !IsSeparator(s[i])
  }

  /** `camelize` undoes `underscore` on names without separators:
      `underscore("renderWidget") == "render_widget"` and back. */
  lemma {:induction false} CamelizeUnderscore(s: string)
    requires NoSeparator(s)
    ensures Camelize(Underscore(s)) == s
    decreases |s|
  {
    if s != [] {
      var u := Underscore(s);
      var rest := Underscore(s[1..]);
      CamelizeUnderscore(s[1..]);
      if IsUpper(s[0]) {
        assert u == ['_', ToLowerChar(s[0])] + rest;
        assert MatchesAtStart(u) && u[2..] == rest;
        CamelizeStep(u);
      } else {
        assert u == [s[0]] + rest;
        assert !MatchesAtStart(u) && u[1..] == rest;
        CamelizeStep(u);
      }
      assert s == [s[0]] + s[1..];
    }
  }

  /** A cell view file `render_widget.php` is also indexed as
      `renderWidget`, the name `parseCellName` turns back into `render_widget`. */
  lemma VariableCamelizeUnderscore(s: string)
    requires NoSeparator(s) && (s == [] || !IsUpper(s[0]))
    ensures VariableCamelize(Underscore(s)) == s
  {
    var u := Underscore(s);
    VariableCamelizeIsCamelize(u);
    CamelizeUnderscore(s);
    if s != [] {
      assert u == [s[0]] + Underscore(s[1..]);
      assert !MatchesAtStart(u);
      CamelizeStep(u);
    }
  }
}
