/**
The JSON Schema published for references: three regular expressions under `oneOf`, and the proof
that they admit exactly the texts the parser accepts.
*/
module ReferenceSchema {
  import opened Prelude
  import opened Text
  import opened ArtifactReference

  /******* Regular expressions *******/

  datatype Class = Alphanumeric | TargetClass | UndottedClass | AnyInLine

  predicate In(c: char, letters: Class) {
    match letters
    case Alphanumeric => IsAlphanumeric(c)
    case TargetClass => IsTargetChar(c)
    case UndottedClass => IsTargetChar(c) && c != '.'
    case AnyInLine => c != '\n' && c != '\r' && c != '\U{2028}' && c != '\U{2029}'
  }

  /** `Chars(letters, lo, hi)` repeats a character class; a missing upper bound is the star. */
  datatype Regex =
    | Literal(text: string)
    | Chars(letters: Class, lo: nat, hi: Option<nat>)
    | Cat(first: Regex, second: Regex)
    | Or(left: Regex, right: Regex)
    | Maybe(body: Regex)
    | Ahead(body: Regex)
    | NotAhead(body: Regex)
    | End

  /** `re` can match the first `n` characters of `s`. */
  ghost predicate Takes(re: Regex, s: string, n: nat)
    decreases re
  {
    n <= |s| &&
    match re
    case Literal(text) => s[..n] == text
    case Chars(letters, lo, hi) => lo <= n && (hi.Some? ==> n <= hi.value) && forall c | c in s[..n] :: In(c, letters)
    case Cat(first, second) => exists m: nat :: m <= n && Takes(first, s, m) && Takes(second, s[m..], n - m)
    case Or(left, right) => Takes(left, s, n) || Takes(right, s, n)
    case Maybe(body) => n == 0 || Takes(body, s, n)
    case Ahead(body) => n == 0 && exists m: nat :: Takes(body, s, m)
    case NotAhead(body) => n == 0 && !exists m: nat :: Takes(body, s, m)
    case End => n == 0 && s == ""
  }

  /** A match that starts at the beginning of `s`, as `^` asks. */
  ghost predicate Matches(re: Regex, s: string) {
    exists n: nat :: Takes(re, s, n)
  }

  /** A match of two expressions in a row splits where the first one ends. */
  lemma SplitPoint(first: Regex, second: Regex, s: string) returns (m: nat)
    requires Matches(Cat(first, second), s)
    ensures m <= |s| && Takes(first, s, m) && Matches(second, s[m..])
  {
    var n: nat :| Takes(Cat(first, second), s, n);
    m :| m <= n && Takes(first, s, m) && Takes(second, s[m..], n - m);
  }

  lemma JoinPoint(first: Regex, second: Regex, s: string, m: nat)
    requires m <= |s| && Takes(first, s, m) && Matches(second, s[m..])
    ensures Matches(Cat(first, second), s)
  {
    var n: nat :| Takes(second, s[m..], n);
    assert Takes(second, s[m..], m + n - m);
    assert Takes(Cat(first, second), s, m + n);
  }

  lemma CatMatches(first: Regex, second: Regex, s: string)
    ensures Matches(Cat(first, second), s) <==>
      exists m: nat :: m <= |s| && Takes(first, s, m) && Matches(second, s[m..])
  {
    if Matches(Cat(first, second), s) {
      var m := SplitPoint(first, second, s);
    }
    if m: nat :| m <= |s| && Takes(first, s, m) && Matches(second, s[m..]) {
      JoinPoint(first, second, s, m);
    }
  }

  /** After a literal only what follows it is left to match. */
  lemma LiteralMatches(text: string, second: Regex, s: string)
    ensures Matches(Cat(Literal(text), second), s) <==> StartsWith(s, text) && Matches(second, s[|text|..])
  {
    CatMatches(Literal(text), second, s);
    if StartsWith(s, text) {
      assert Takes(Literal(text), s, |text|);
    }
  }

  /** A lookahead consumes nothing. */
  lemma AheadMatches(look: Regex, second: Regex, s: string)
    requires look.Ahead? || look.NotAhead?
    ensures Matches(Cat(look, second), s) <==> Takes(look, s, 0) && Matches(second, s)
  {
    CatMatches(look, second, s);
    assert s[0..] == s;
  }

  lemma OrMatches(left: Regex, right: Regex, second: Regex, s: string)
    ensures Matches(Cat(Or(left, right), second), s) <==>
      Matches(Cat(left, second), s) || Matches(Cat(right, second), s)
  {
    CatMatches(Or(left, right), second, s);
    CatMatches(left, second, s);
    CatMatches(right, second, s);
  }

  /******* The published patterns *******/

  const ONE_ALPHANUMERIC := Chars(Alphanumeric, 1, Some(1))

  function Target(letters: Class): Regex {
    Cat(ONE_ALPHANUMERIC, Maybe(Cat(Chars(letters, 0, Some(510)), ONE_ALPHANUMERIC)))
  }

  const NO_SCHEME := NotAhead(Cat(Chars(AnyInLine, 0, None), Literal(SCHEME)))
  const SHORT := Ahead(Cat(Chars(AnyInLine, 1, Some(512)), End))

  const PLAIN_SCHEMES :=
    Or(Literal("agent"),
    Or(Literal("skill"),
    Or(Literal("connector"),
    Or(Literal("experiment_plan"), Literal("tool")))))

  function PlainTail(): Regex { Cat(NO_SCHEME, Cat(Target(TargetClass), End)) }
  function UndottedTail(): Regex { Cat(NO_SCHEME, Cat(Target(UndottedClass), End)) }
  function DottedTail(): Regex {
    Cat(NO_SCHEME, Cat(SHORT, Cat(Target(UndottedClass), Cat(Literal("."), Cat(Target(TargetClass), End)))))
  }

  function PlainPattern(): Regex { Cat(PLAIN_SCHEMES, Cat(Literal(SCHEME), PlainTail())) }
  function UndottedPattern(): Regex { Cat(Literal("action://"), UndottedTail()) }
  function DottedPattern(): Regex { Cat(Literal("action://"), DottedTail()) }

  ghost predicate PlainBranch(s: string) { Matches(PlainPattern(), s) && |s| <= 530 }
  ghost predicate UndottedBranch(s: string) { Matches(UndottedPattern(), s) && |s| <= 521 }
  ghost predicate DottedBranch(s: string) { Matches(DottedPattern(), s) && |s| <= 521 }

  function Count(b: bool): nat { if b then 1 else 0 }

  /** `oneOf`: exactly one branch admits the text. */
  ghost predicate SchemaAdmits(s: string) {
    Count(PlainBranch(s)) + Count(UndottedBranch(s)) + Count(DottedBranch(s)) == 1
  }

  /******* What the patterns match *******/

  ghost predicate Spelled(t: string, letters: Class) {
    && 1 <= |t| <= MAX_TARGET
    && IsAlphanumeric(t[0])
    && IsAlphanumeric(t[|t| - 1])
    && forall c | c in t :: In(c, letters)
  }

  lemma OneTakes(s: string, m: nat)
    ensures Takes(ONE_ALPHANUMERIC, s, m) <==> m == 1 <= |s| && IsAlphanumeric(s[0])
  {
    if m == 1 <= |s| {
      assert s[..1] == [s[0]] && s[0] in s[..1];
    }
  }

  /** What may stand between the first character of a target and its end. */
  ghost predicate TailSpelled(letters: Class, s: string, n: nat)
    requires 1 <= n && n + 1 <= |s|
  {
    n <= 511 && IsAlphanumeric(s[n]) && forall c | c in s[1..n] :: In(c, letters)
  }

  lemma TailSplits(letters: Class, s: string, n: nat)
    requires 1 <= n && n + 1 <= |s|
    requires Takes(Cat(Chars(letters, 0, Some(510)), ONE_ALPHANUMERIC), s[1..], n)
    ensures TailSpelled(letters, s, n)
  {
    var rest := s[1..];
    var m: nat :| m <= n && Takes(Chars(letters, 0, Some(510)), rest, m) && Takes(ONE_ALPHANUMERIC, rest[m..], n - m);
    OneTakes(rest[m..], n - m);
    assert rest[..m] == s[1..n] && rest[m..][0] == s[n];
  }

  lemma TailJoins(letters: Class, s: string, n: nat)
    requires 1 <= n && n + 1 <= |s| && TailSpelled(letters, s, n)
    ensures Takes(Cat(Chars(letters, 0, Some(510)), ONE_ALPHANUMERIC), s[1..], n)
  {
    var rest := s[1..];
    assert rest[..n - 1] == s[1..n];
    assert Takes(Chars(letters, 0, Some(510)), rest, n - 1);
    assert rest[n - 1..][0] == s[n];
    OneTakes(rest[n - 1..], n - (n - 1));
  }

  lemma TailTakes(letters: Class, s: string, n: nat)
    requires 1 <= n && n + 1 <= |s|
    ensures Takes(Cat(Chars(letters, 0, Some(510)), ONE_ALPHANUMERIC), s[1..], n) <==> TailSpelled(letters, s, n)
  {
    if Takes(Cat(Chars(letters, 0, Some(510)), ONE_ALPHANUMERIC), s[1..], n) {
      TailSplits(letters, s, n);
    }
    if TailSpelled(letters, s, n) {
      TailJoins(letters, s, n);
    }
  }

  lemma MaybeTakes(body: Regex, s: string, n: nat)
    requires n >= 1
    ensures Takes(Maybe(body), s, n) <==> Takes(body, s, n)
  {
  }

  lemma OneThenTakes(second: Regex, s: string, n: nat)
    ensures Takes(Cat(ONE_ALPHANUMERIC, second), s, n) <==>
      1 <= n <= |s| && IsAlphanumeric(s[0]) && Takes(second, s[1..], n - 1)
  {
    if Takes(Cat(ONE_ALPHANUMERIC, second), s, n) {
      var m: nat :| m <= n && Takes(ONE_ALPHANUMERIC, s, m) && Takes(second, s[m..], n - m);
      OneTakes(s, m);
    }
    if 1 <= n <= |s| && IsAlphanumeric(s[0]) && Takes(second, s[1..], n - 1) {
      OneTakes(s, 1);
    }
  }

  lemma SpelledParts(letters: Class, s: string, n: nat)
    requires letters == TargetClass || letters == UndottedClass
    requires 2 <= n <= |s|
    ensures Spelled(s[..n], letters) <==> IsAlphanumeric(s[0]) && TailSpelled(letters, s, n - 1)
  {
    assert s[..n] == [s[0]] + s[1..n - 1] + [s[n - 1]];
    assert forall c :: c in s[..n] <==> c == s[0] || c in s[1..n - 1] || c == s[n - 1];
  }

  lemma TargetTakes(letters: Class, s: string, n: nat)
    requires letters == TargetClass || letters == UndottedClass
    ensures Takes(Target(letters), s, n) <==> n <= |s| && Spelled(s[..n], letters)
  {
    var body := Cat(Chars(letters, 0, Some(510)), ONE_ALPHANUMERIC);
    OneThenTakes(Maybe(body), s, n);
    if 2 <= n <= |s| {
      SpelledParts(letters, s, n);
      MaybeTakes(body, s[1..], n - 1);
      TailTakes(letters, s, n - 1);
    } else if n == 1 <= |s| {
      assert s[..n] == [s[0]];
    }
  }

  lemma LiteralAt(text: string, s: string, m: nat)
    requires m <= |s|
    ensures Matches(Literal(text), s[m..]) <==> OccursAt(s, text, m)
  {
    if n: nat :| Takes(Literal(text), s[m..], n) {
      assert s[m..][..n] == s[m..m + |text|];
    }
    if OccursAt(s, text, m) {
      assert s[m..][..|text|] == s[m..m + |text|];
      assert Takes(Literal(text), s[m..], |text|);
    }
  }

  /** `(?!.*://)` on a line: the scheme separator does not occur again. */
  lemma NoSchemeTakes(s: string)
    requires forall c | c in s :: In(c, AnyInLine)
    ensures Takes(NO_SCHEME, s, 0) <==> Find(s, SCHEME).None?
  {
    var any, look := Chars(AnyInLine, 0, None), Cat(Chars(AnyInLine, 0, None), Literal(SCHEME));
    assert Takes(NO_SCHEME, s, 0) <==> !Matches(look, s);
    if Matches(look, s) {
      var m := SplitPoint(any, Literal(SCHEME), s);
      LiteralAt(SCHEME, s, m);
    }
    if Find(s, SCHEME).Some? {
      var m := Find(s, SCHEME).value;
      LiteralAt(SCHEME, s, m);
      assert Takes(any, s, m);
      JoinPoint(any, Literal(SCHEME), s, m);
    }
  }

  lemma EndMatches(s: string)
    ensures Matches(End, s) <==> s == ""
  {
    if s == "" {
      assert Takes(End, s, 0);
    }
  }

  lemma TargetEnds(letters: Class, s: string)
    requires letters == TargetClass || letters == UndottedClass
    ensures Matches(Cat(Target(letters), End), s) <==> Spelled(s, letters)
  {
    CatMatches(Target(letters), End, s);
    assert s[..|s|] == s;
    TargetTakes(letters, s, |s|);
    EndMatches(s[|s|..]);
    if m: nat :| m <= |s| && Takes(Target(letters), s, m) && Matches(End, s[m..]) {
      EndMatches(s[m..]);
      assert m == |s|;
    }
  }

  lemma SpelledIsOneLine(s: string, letters: Class)
    requires letters == TargetClass || letters == UndottedClass
    requires forall c | c in s :: In(c, letters) || c == '.'
    ensures forall c | c in s :: In(c, AnyInLine)
  {
  }

  lemma PlainTailMatches(t: string)
    ensures Matches(PlainTail(), t) <==> ValidTarget(t)
  {
    AheadMatches(NO_SCHEME, Cat(Target(TargetClass), End), t);
    TargetEnds(TargetClass, t);
    if Spelled(t, TargetClass) {
      SpelledIsOneLine(t, TargetClass);
      NoSchemeTakes(t);
    }
  }

  lemma UndottedTailMatches(t: string)
    ensures Matches(UndottedTail(), t) <==> ValidTarget(t) && '.' !in t
  {
    AheadMatches(NO_SCHEME, Cat(Target(UndottedClass), End), t);
    TargetEnds(UndottedClass, t);
    if Spelled(t, UndottedClass) {
      SpelledIsOneLine(t, UndottedClass);
      NoSchemeTakes(t);
    }
  }

  lemma ShortTakes(s: string)
    requires forall c | c in s :: In(c, AnyInLine)
    ensures Takes(SHORT, s, 0) <==> 1 <= |s| <= MAX_TARGET
  {
    var line := Chars(AnyInLine, 1, Some(512));
    CatMatches(line, End, s);
    if m: nat :| m <= |s| && Takes(line, s, m) && Matches(End, s[m..]) {
      EndMatches(s[m..]);
      assert m == |s|;
    }
    if 1 <= |s| <= MAX_TARGET {
      assert s[..|s|] == s && Takes(line, s, |s|);
      EndMatches(s[|s|..]);
    }
    assert Takes(SHORT, s, 0) <==> Matches(Cat(line, End), s);
  }

  /** `t` is a connector without dots, a dot and an action. */
  ghost predicate IsDotted(t: string, connector: string, action: string) {
    t == connector + "." + action && Spelled(connector, UndottedClass) && Spelled(action, TargetClass)
  }

  lemma DotThenTarget(u: string)
    ensures Matches(Cat(Literal("."), Cat(Target(TargetClass), End)), u) <==>
      u != "" && u[0] == '.' && Spelled(u[1..], TargetClass)
  {
    LiteralMatches(".", Cat(Target(TargetClass), End), u);
    if u != "" {
      TargetEnds(TargetClass, u[1..]);
      assert u[..1] == [u[0]];
    }
  }

  lemma CutIsDotted(t: string, m: nat)
    requires m < |t| && Spelled(t[..m], UndottedClass) && t[m..][0] == '.' && Spelled(t[m..][1..], TargetClass)
    ensures IsDotted(t, t[..m], t[m..][1..])
  {
    assert t == t[..m] + "." + t[m..][1..];
  }

  lemma DottedNameSplits(name: Regex, rest: Regex, t: string) returns (connector: string, action: string)
    requires name == Target(UndottedClass) && rest == Cat(Literal("."), Cat(Target(TargetClass), End))
    requires Matches(Cat(name, rest), t)
    ensures IsDotted(t, connector, action)
  {
    var m := SplitPoint(name, rest, t);
    assert Spelled(t[..m], UndottedClass) by {
      TargetTakes(UndottedClass, t, m);
    }
    assert t[m..] != "" && t[m..][0] == '.' && Spelled(t[m..][1..], TargetClass) by {
      DotThenTarget(t[m..]);
    }
    CutIsDotted(t, m);
    return t[..m], t[m..][1..];
  }

  lemma DottedNameJoins(name: Regex, rest: Regex, t: string, connector: string, action: string)
    requires name == Target(UndottedClass) && rest == Cat(Literal("."), Cat(Target(TargetClass), End))
    requires IsDotted(t, connector, action)
    ensures Matches(Cat(name, rest), t)
  {
    var m := |connector|;
    assert t[..m] == connector && t[m..] == "." + action && t[m..][1..] == action;
    assert Takes(name, t, m) by {
      TargetTakes(UndottedClass, t, m);
    }
    assert Matches(rest, t[m..]) by {
      DotThenTarget(t[m..]);
    }
    JoinPoint(name, rest, t, m);
  }

  lemma DottedIsOneLine(t: string, connector: string, action: string)
    requires IsDotted(t, connector, action)
    ensures forall c | c in t :: In(c, AnyInLine)
  {
    assert forall c | c in t :: c in connector || c == '.' || c in action;
  }

  lemma DottedTailMatches(t: string)
    ensures Matches(DottedTail(), t) <==>
      |t| <= MAX_TARGET && Find(t, SCHEME).None? && exists connector, action :: IsDotted(t, connector, action)
  {
    var rest := Cat(Literal("."), Cat(Target(TargetClass), End));
    var name := Cat(Target(UndottedClass), rest);
    AheadMatches(NO_SCHEME, Cat(SHORT, name), t);
    AheadMatches(SHORT, name, t);
    if Matches(name, t) {
      var connector, action := DottedNameSplits(Target(UndottedClass), rest, t);
    }
    if connector, action :| IsDotted(t, connector, action) {
      DottedNameJoins(Target(UndottedClass), rest, t, connector, action);
      DottedIsOneLine(t, connector, action);
      NoSchemeTakes(t);
      ShortTakes(t);
    }
  }

  /** Without a separator in the whole there is none in a part. */
  lemma NoSchemeInPart(a: string, b: string, c: string)
    requires Find(a + b + c, SCHEME).None?
    ensures Find(a, SCHEME).None? && Find(c, SCHEME).None?
  {
    var s := a + b + c;
    if Find(a, SCHEME).Some? {
      var i := Find(a, SCHEME).value;
      assert s[i..i + |SCHEME|] == a[i..i + |SCHEME|];
      assert OccursAt(s, SCHEME, i);
    }
    if Find(c, SCHEME).Some? {
      var i := Find(c, SCHEME).value;
      var j := |a| + |b| + i;
      assert s[j..j + |SCHEME|] == c[i..i + |SCHEME|];
      assert OccursAt(s, SCHEME, j);
    }
  }

  lemma DottedPrints(t: string, connector: string, action: string)
    ensures IsDotted(t, connector, action) && |t| <= MAX_TARGET && Find(t, SCHEME).None? <==>
      Print(ActionRef(connector, action)) == Ok("action" + SCHEME + t)
  {
    var name := connector + "." + action;
    if IsDotted(t, connector, action) && Find(t, SCHEME).None? {
      NoSchemeInPart(connector, ".", action);
      assert forall c | c in t :: c in connector || c == '.' || c in action;
      assert t[0] == connector[0] && t[|t| - 1] == action[|action| - 1];
    }
    if Print(ActionRef(connector, action)) == Ok("action" + SCHEME + t) {
      assert ("action" + SCHEME + t)[9..] == t && ("action" + SCHEME + name)[9..] == name;
    }
  }

  /******* Patterns and printed references *******/

  datatype Shape = Plain | Undotted | Dotted

  function ShapeOf(r: Reference): Shape {
    if r.ActionRef? then Dotted
    else if r.ArtifactRef? && r.kind == ActionKind then Undotted
    else Plain
  }

  ghost predicate Prints(shape: Shape, s: string) {
    exists r: Reference :: ShapeOf(r) == shape && Print(r) == Ok(s)
  }

  lemma ActionText(s: string)
    requires StartsWith(s, "action://")
    ensures s == "action" + SCHEME + s[9..]
  {
    assert "action://" == "action" + SCHEME;
  }

  lemma ActionTextOf(t: string)
    ensures var s := "action" + SCHEME + t; StartsWith(s, "action://") && s[9..] == t
  {
    assert "action://" == "action" + SCHEME;
  }

  /** Both action patterns leave the text after the scheme to their tails. */
  lemma ActionMatches(tail: Regex, s: string)
    ensures Matches(Cat(Literal("action://"), tail), s) <==> StartsWith(s, "action://") && Matches(tail, s[9..])
  {
    LiteralMatches("action://", tail, s);
  }

  ghost predicate IsDottedText(s: string) {
    && StartsWith(s, "action://") && |s| <= 521 && Find(s[9..], SCHEME).None?
    && exists connector, action :: IsDotted(s[9..], connector, action)
  }

  lemma DottedTextPrints(s: string)
    ensures IsDottedText(s) <==> Prints(Dotted, s)
  {
    if IsDottedText(s) {
      ActionText(s);
      var connector, action :| IsDotted(s[9..], connector, action);
      DottedPrints(s[9..], connector, action);
      assert ShapeOf(ActionRef(connector, action)) == Dotted;
    }
    if r: Reference :| ShapeOf(r) == Dotted && Print(r) == Ok(s) {
      var t := r.connector + "." + r.action;
      ActionTextOf(t);
      DottedPrints(t, r.connector, r.action);
      assert IsDotted(s[9..], r.connector, r.action);
    }
  }

  lemma DottedMatches(s: string)
    ensures DottedBranch(s) <==> Prints(Dotted, s)
  {
    ActionMatches(DottedTail(), s);
    if StartsWith(s, "action://") {
      DottedTailMatches(s[9..]);
    }
    DottedTextPrints(s);
  }

  ghost predicate IsUndottedText(s: string) {
    StartsWith(s, "action://") && ValidTarget(s[9..]) && '.' !in s[9..]
  }

  lemma UndottedTextPrints(s: string)
    ensures IsUndottedText(s) <==> Prints(Undotted, s)
  {
    if IsUndottedText(s) {
      ActionText(s);
      var r := ArtifactRef(ActionKind, s[9..]);
      assert ShapeOf(r) == Undotted && Print(r) == Ok(s);
    }
    if r: Reference :| ShapeOf(r) == Undotted && Print(r) == Ok(s) {
      ActionTextOf(r.name);
    }
  }

  lemma UndottedMatches(s: string)
    ensures UndottedBranch(s) <==> Prints(Undotted, s)
  {
    ActionMatches(UndottedTail(), s);
    if StartsWith(s, "action://") {
      UndottedTailMatches(s[9..]);
    }
    UndottedTextPrints(s);
  }

  /** `s` names a target under the given scheme. */
  ghost predicate Names(s: string, scheme: string) {
    var k := |scheme| + |SCHEME|;
    StartsWith(s, scheme + SCHEME) && ValidTarget(s[k..])
  }

  lemma SchemeMatches(scheme: string, s: string)
    ensures Matches(Cat(Literal(scheme), Cat(Literal(SCHEME), PlainTail())), s) <==> Names(s, scheme)
  {
    LiteralMatches(scheme, Cat(Literal(SCHEME), PlainTail()), s);
    var both, k := scheme + SCHEME, |scheme| + |SCHEME|;
    if StartsWith(s, scheme) {
      var rest := s[|scheme|..];
      LiteralMatches(SCHEME, PlainTail(), rest);
      if StartsWith(rest, SCHEME) {
        assert rest[..|SCHEME|] == s[|scheme|..k];
        assert s[..k] == s[..|scheme|] + s[|scheme|..k] == both;
        assert rest[|SCHEME|..] == s[k..];
        PlainTailMatches(s[k..]);
      }
    }
    if StartsWith(s, both) {
      assert s[..|scheme|] == s[..k][..|scheme|] == both[..|scheme|] == scheme;
      assert s[|scheme|..][..|SCHEME|] == s[..k][|scheme|..] == both[|scheme|..] == SCHEME;
    }
  }

  ghost predicate NamesPlain(s: string) {
    Names(s, "agent") || Names(s, "skill") || Names(s, "connector") || Names(s, "experiment_plan") || Names(s, "tool")
  }

  lemma SchemesMatch(s: string)
    ensures Matches(PlainPattern(), s) <==> NamesPlain(s)
  {
    var rest := Cat(Literal(SCHEME), PlainTail());
    var planOrTool := Or(Literal("experiment_plan"), Literal("tool"));
    var fromConnector := Or(Literal("connector"), planOrTool);
    var fromSkill := Or(Literal("skill"), fromConnector);
    OrMatches(Literal("agent"), fromSkill, rest, s);
    OrMatches(Literal("skill"), fromConnector, rest, s);
    OrMatches(Literal("connector"), planOrTool, rest, s);
    OrMatches(Literal("experiment_plan"), Literal("tool"), rest, s);
    SchemeMatches("agent", s);
    SchemeMatches("skill", s);
    SchemeMatches("connector", s);
    SchemeMatches("experiment_plan", s);
    SchemeMatches("tool", s);
  }

  function PlainReference(scheme: string, name: string): Reference {
    match KindNamed(scheme)
    case None => ToolRef(name)
    case Some(kind) => ArtifactRef(kind, name)
  }

  lemma NamesPrints(s: string, scheme: string)
    requires scheme in ["agent", "skill", "connector", "experiment_plan", "tool"]
    ensures Names(s, scheme) ==> Prints(Plain, s) && |s| <= 530
  {
    if Names(s, scheme) {
      var name := s[|scheme| + |SCHEME|..];
      var r := PlainReference(scheme, name);
      assert s == scheme + SCHEME + name;
      assert ShapeOf(r) == Plain && Print(r) == Ok(s);
    }
  }

  lemma PrintsNames(s: string, r: Reference, scheme: string)
    requires ShapeOf(r) == Plain && Print(r) == Ok(s)
    requires scheme == if r.ToolRef? then "tool" else KindName(r.kind)
    ensures Names(s, scheme)
  {
    assert s == scheme + SCHEME + r.name;
    assert s[..|scheme| + |SCHEME|] == scheme + SCHEME && s[|scheme| + |SCHEME|..] == r.name;
  }

  lemma PlainPrints(s: string)
    ensures NamesPlain(s) <==> Prints(Plain, s)
    ensures NamesPlain(s) ==> |s| <= 530
  {
    if NamesPlain(s) {
      NamesPrints(s, "agent");
      NamesPrints(s, "skill");
      NamesPrints(s, "connector");
      NamesPrints(s, "experiment_plan");
      NamesPrints(s, "tool");
    }
    if r: Reference :| ShapeOf(r) == Plain && Print(r) == Ok(s) {
      PrintsNames(s, r, if r.ToolRef? then "tool" else KindName(r.kind));
    }
  }

  lemma PlainMatches(s: string)
    ensures PlainBranch(s) <==> Prints(Plain, s)
  {
    SchemesMatch(s);
    PlainPrints(s);
  }

  /** The published schema admits exactly the texts the parser accepts. */
  lemma SchemaAgreesWithParser(s: string)
    ensures SchemaAdmits(s) <==> Parse(s).Ok?
  {
    PlainMatches(s);
    UndottedMatches(s);
    DottedMatches(s);
    AcceptsCanonicalText(s);
    if r: Reference :| Print(r) == Ok(s) {
      forall other: Reference | Print(other) == Ok(s) ensures ShapeOf(other) == ShapeOf(r) {
        PrintIsInjective(r, other);
      }
      assert Prints(ShapeOf(r), s);
    }
  }
}
