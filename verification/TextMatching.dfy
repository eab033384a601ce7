/**
Matching text the two ways the backends do: literally, and by a LIKE pattern in which `%`, `_` and
the escape character `\` are special. Both ignore case by folding characters first.
*/
module TextMatching {
  import opened Text

  predicate IsWildcard(c: char) { c == '%' || c == '_' || c == '\\' }

  predicate IsLiteral(s: string) {
    forall c | c in s :: !IsWildcard(c)
  }

  /** The LIKE predicate of SQL: `%` stands for any text, `_` for one character, `\c` for `c`. */
  predicate Like(p: string, t: string)
    decreases |p| + |t|
  {
    if p == "" then t == ""
    else if p[0] == '%' then Like(p[1..], t) || (t != "" && Like(p, t[1..]))
    else if t == "" then false
    else if p[0] == '_' then Like(p[1..], t[1..])
    else if p[0] == '\\' then |p| >= 2 && t[0] == p[1] && Like(p[2..], t[1..])
    else t[0] == p[0] && Like(p[1..], t[1..])
  }

  predicate Occurs(t: string, s: string) {
    exists i: nat | i <= |t| :: OccursAt(t, s, i)
  }

  predicate EndsWith(t: string, s: string) {
    |s| <= |t| && t[|t| - |s|..] == s
  }

  /******* Patterns around literal text *******/

  lemma {:induction false} LiteralFirst(s: string, p: string, t: string)
    requires IsLiteral(s)
    ensures Like(s + p, t) <==> StartsWith(t, s) && Like(p, t[|s|..])
  {
    if s == "" {
      assert s + p == p;
    } else {
      assert (s + p)[1..] == s[1..] + p && s[0] in s;
      if t != "" {
        LiteralFirst(s[1..], p, t[1..]);
        assert StartsWith(t, s) <==> t[0] == s[0] && StartsWith(t[1..], s[1..]) by {
          assert s == [s[0]] + s[1..] && t == [t[0]] + t[1..];
          if |s| <= |t| {
            assert t[..|s|] == [t[0]] + t[1..][..|s| - 1];
          }
        }
        if |s| <= |t| {
          assert t[1..][|s| - 1..] == t[|s|..];
        }
      }
    }
  }

  lemma {:induction false} PercentMatchesAll(t: string)
    ensures Like("%", t)
  {
    if t != "" {
      PercentMatchesAll(t[1..]);
    }
    assert "%"[1..] == "";
  }

  lemma {:induction false} PercentSkips(p: string, t: string)
    ensures Like("%" + p, t) <==> exists i: nat | i <= |t| :: Like(p, t[i..])
  {
    assert ("%" + p)[1..] == p && t[0..] == t;
    if t != "" {
      PercentSkips(p, t[1..]);
      if i: nat :| i <= |t[1..]| && Like(p, t[1..][i..]) {
        assert t[1..][i..] == t[i + 1..];
      }
      if i: nat :| i <= |t| && Like(p, t[i..]) {
        assert i > 0 ==> t[i..] == t[1..][i - 1..];
      }
    }
  }

  lemma LiteralWhole(s: string, t: string)
    requires IsLiteral(s)
    ensures Like(s, t) <==> s == t
  {
    LiteralFirst(s, "", t);
    assert s + "" == s;
    assert StartsWith(t, s) && t[|s|..] == "" ==> t == s;
  }

  lemma LiteralStarts(s: string, t: string)
    requires IsLiteral(s)
    ensures Like(s + "%", t) <==> StartsWith(t, s)
  {
    LiteralFirst(s, "%", t);
    if StartsWith(t, s) {
      PercentMatchesAll(t[|s|..]);
    }
  }

  lemma StartsIsOccursAt(s: string, t: string, i: nat)
    requires i <= |t|
    ensures StartsWith(t[i..], s) <==> OccursAt(t, s, i)
  {
    assert i + |s| <= |t| ==> t[i..][..|s|] == t[i..i + |s|];
  }

  lemma LiteralOccurs(s: string, t: string)
    requires IsLiteral(s)
    ensures Like("%" + (s + "%"), t) <==> Occurs(t, s)
  {
    PercentSkips(s + "%", t);
    forall i: nat | i <= |t| ensures Like(s + "%", t[i..]) <==> OccursAt(t, s, i) {
      LiteralStarts(s, t[i..]);
      StartsIsOccursAt(s, t, i);
    }
  }

  lemma LiteralEnds(s: string, t: string)
    requires IsLiteral(s)
    ensures Like("%" + s, t) <==> EndsWith(t, s)
  {
    PercentSkips(s, t);
    forall i: nat | i <= |t| ensures Like(s, t[i..]) <==> s == t[i..] {
      LiteralWhole(s, t[i..]);
    }
    if EndsWith(t, s) {
      assert Like(s, t[|t| - |s|..]);
    }
  }

  /******* Text that is not literal *******/

  /** The escape character is the last of the text and escapes what follows it. */
  predicate Dangling(s: string) {
    if s == "" then false
    else if s[0] != '\\' then Dangling(s[1..])
    else |s| == 1 || Dangling(s[2..])
  }

  /** A text the pattern matches: `%` as nothing, `_` as `x`. */
  function Instance(s: string, x: char): (t: string)
    ensures |t| <= |s|
  {
    if s == "" then ""
    else if s[0] == '%' then Instance(s[1..], x)
    else if s[0] == '_' then [x] + Instance(s[1..], x)
    else if s[0] != '\\' then [s[0]] + Instance(s[1..], x)
    else if |s| == 1 then ""
    else [s[1]] + Instance(s[2..], x)
  }

  /** Only literal text is its own instance. */
  lemma {:induction false} InstanceDiffers(s: string, x: char)
    requires !IsLiteral(s) && x != '_'
    ensures Instance(s, x) != s
    ensures Dangling(s) ==> Instance(s, x) + "%" != s
  {
    var t := Instance(s, x);
    assert s == [s[0]] + s[1..];
    if s[0] == '%' || s[0] == '\\' {
      assert |t| < |s|;
      assert Dangling(s) && |t| + 1 == |s| ==> s[|s| - 1] == '\\' by {
        if Dangling(s) {
          DanglingEnds(s);
        }
      }
    } else if s[0] == '_' {
      assert t[0] == x;
    } else {
      assert exists c :: c in s[1..] && IsWildcard(c);
      InstanceDiffers(s[1..], x);
      assert t[1..] == Instance(s[1..], x);
      assert (t + "%")[1..] == t[1..] + "%";
    }
  }

  lemma {:induction false} DanglingEnds(s: string)
    requires Dangling(s)
    ensures s[|s| - 1] == '\\'
  {
    if s[0] != '\\' {
      DanglingEnds(s[1..]);
    } else if |s| > 1 {
      DanglingEnds(s[2..]);
    }
  }

  lemma {:induction false} InstanceMatches(s: string, x: char)
    ensures Like(s + "%", Instance(s, x) + if Dangling(s) then "%" else "")
  {
    var t := Instance(s, x) + if Dangling(s) then "%" else "";
    if s == "" {
      assert s + "%" == "%" && t == "";
      PercentMatchesAll("");
    } else if s[0] == '\\' && |s| == 1 {
      assert s + "%" == "\\%" && t == "%" && ("\\%")[2..] == "" && "%"[1..] == "";
    } else {
      var n := if s[0] == '\\' then 2 else 1;
      InstanceMatches(s[n..], x);
      assert (s + "%")[n..] == s[n..] + "%";
      if s[0] != '%' {
        assert t[1..] == Instance(s[n..], x) + if Dangling(s[n..]) then "%" else "";
      }
    }
  }

  lemma {:induction false} InstanceMatchesWhole(s: string, x: char)
    requires !Dangling(s)
    ensures Like(s, Instance(s, x))
  {
    if s != "" {
      var n := if s[0] == '\\' then 2 else 1;
      InstanceMatchesWhole(s[n..], x);
      if s[0] != '%' {
        assert Instance(s, x)[1..] == Instance(s[n..], x);
      }
    }
  }

  lemma {:induction false} DanglingNeverMatches(s: string, t: string)
    requires Dangling(s)
    ensures !Like(s, t)
    decreases |s| + |t|
  {
    if s[0] == '%' {
      DanglingNeverMatches(s[1..], t);
      if t != "" {
        DanglingNeverMatches(s, t[1..]);
      }
    } else if t != "" {
      if s[0] == '\\' {
        if |s| > 1 {
          DanglingNeverMatches(s[2..], t[1..]);
        }
      } else {
        DanglingNeverMatches(s[1..], t[1..]);
      }
    }
  }

  /** A text that is no longer than `s` and different from it holds no occurrence of it. */
  lemma ShorterHoldsNone(s: string, t: string)
    requires |t| <= |s| && t != s
    ensures !Occurs(t, s) && !StartsWith(t, s) && !EndsWith(t, s)
  {
    assert |s| == |t| ==> t[0..|s|] == t && t[..|s|] == t && t[|t| - |s|..] == t;
  }

  /** On some text the pattern and the literal search differ, for each of the three ways of searching. */
  lemma WildcardsDiffer(s: string, x: char) returns (t: string)
    requires !IsLiteral(s) && x != '_'
    ensures t == Instance(s, x) + if Dangling(s) then "%" else ""
    ensures Like("%" + (s + "%"), t) && !Occurs(t, s)
    ensures Like(s + "%", t) && !StartsWith(t, s)
    ensures !Dangling(s) ==> Like("%" + s, t) && !EndsWith(t, s)
  {
    t := Instance(s, x) + if Dangling(s) then "%" else "";
    InstanceMatches(s, x);
    InstanceDiffers(s, x);
    PercentSkips(s + "%", t);
    PercentSkips(s, t);
    assert t[0..] == t;
    if Dangling(s) {
      DanglingIsShorter(s, x);
    } else {
      assert t == Instance(s, x);
      InstanceMatchesWhole(s, x);
    }
    ShorterHoldsNone(s, t);
  }

  lemma {:induction false} DanglingIsShorter(s: string, x: char)
    requires Dangling(s)
    ensures |Instance(s, x)| < |s|
  {
    if s[0] != '\\' {
      DanglingIsShorter(s[1..], x);
    } else if |s| > 1 {
      DanglingIsShorter(s[2..], x);
    }
  }

  /******* Folding case *******/

  function Fold(fold: char -> char, s: string): (r: string)
    ensures |r| == |s| && forall i | 0 <= i < |s| :: r[i] == fold(s[i])
  {
    seq(|s|, i requires 0 <= i < |s| => fold(s[i]))
  }

  /** Folding case neither makes nor unmakes a wildcard. */
  ghost predicate KeepsWildcards(fold: char -> char) {
    forall c: char :: (IsWildcard(c) ==> fold(c) == c) && (!IsWildcard(c) ==> !IsWildcard(fold(c)))
  }

  lemma FoldConcat(fold: char -> char, a: string, b: string)
    ensures Fold(fold, a + b) == Fold(fold, a) + Fold(fold, b)
  {
  }

  lemma FoldLiteral(fold: char -> char, s: string)
    requires KeepsWildcards(fold)
    ensures IsLiteral(Fold(fold, s)) <==> IsLiteral(s)
  {
    var r := Fold(fold, s);
    if c :| c in s && IsWildcard(c) {
      var i :| 0 <= i < |s| && s[i] == c;
      assert r[i] in r;
    }
    if c :| c in r && IsWildcard(c) {
      var i :| 0 <= i < |r| && r[i] == c;
      assert s[i] in s;
    }
  }

  lemma {:induction false} FoldInstance(fold: char -> char, s: string, x: char)
    requires KeepsWildcards(fold)
    ensures Fold(fold, Instance(s, x)) == Instance(Fold(fold, s), fold(x))
    ensures Dangling(Fold(fold, s)) <==> Dangling(s)
  {
    if s != "" && !(s[0] == '\\' && |s| == 1) {
      var n := if s[0] == '\\' then 2 else 1;
      FoldInstance(fold, s[n..], x);
      assert Fold(fold, s)[n..] == Fold(fold, s[n..]);
      assert IsWildcard(s[0]) <==> IsWildcard(fold(s[0]));
    }
  }
}
