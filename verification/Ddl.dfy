/**
Reading the declared columns back out of a table's DDL text, and comparing them with the columns a
live table reports.
*/
module Ddl {
  import opened Prelude
  import opened Text

  datatype Column = Column(name: string, kind: string)

  datatype DdlError = NoTableName | UnterminatedName | NoColumnList | UnclosedColumnList | ColumnWithoutType | NoColumns

  /** The Unicode White_Space characters. */
  predicate IsSpace(c: char) {
    || '\t' <= c <= '\r' || c == ' ' || c == '\U{85}' || c == '\U{A0}' || c == '\U{1680}'
    || '\U{2000}' <= c <= '\U{200A}' || c == '\U{2028}' || c == '\U{2029}' || c == '\U{202F}'
    || c == '\U{205F}' || c == '\U{3000}'
  }

  ghost predicate Blank(s: string) {
    forall c | c in s :: IsSpace(c)
  }

  function TrimStart(s: string): string {
    if s != "" && IsSpace(s[0]) then TrimStart(s[1..]) else s
  }

  function TrimEnd(s: string): string {
    if s != "" && IsSpace(s[|s| - 1]) then TrimEnd(s[..|s| - 1]) else s
  }

  function Trim(s: string): string {
    TrimEnd(TrimStart(s))
  }

  function FindSpace(s: string): (r: Option<nat>)
    ensures r.Some? ==> r.value < |s| && IsSpace(s[r.value]) && forall i | 0 <= i < r.value :: !IsSpace(s[i])
    ensures r.None? ==> forall i | 0 <= i < |s| :: !IsSpace(s[i])
  {
    if s == "" then None
    else if IsSpace(s[0]) then Some(0)
    else
      match FindSpace(s[1..])
      case None => None
      case Some(i) => Some(i + 1)
  }

  /** The end of a table name: the first space or parenthesis. */
  function NameEnd(s: string): (r: Option<nat>)
    ensures r.Some? ==>
      r.value < |s| && EndsName(s[r.value]) && forall i | 0 <= i < r.value :: !EndsName(s[i])
    ensures r.None? ==> forall i | 0 <= i < |s| :: !EndsName(s[i])
  {
    if s == "" then None
    else if EndsName(s[0]) then Some(0)
    else
      match NameEnd(s[1..])
      case None => None
      case Some(i) => Some(i + 1)
  }

  predicate EndsName(c: char) {
    IsSpace(c) || c == '('
  }

  /******* Parenthesis depth *******/

  function Level(s: string): int {
    if s == "" then 0
    else
      var c := s[|s| - 1];
      Level(s[..|s| - 1]) + if c == '(' then 1 else if c == ')' then -1 else 0
  }

  /** Every parenthesis closes one that was opened, and none stays open. */
  ghost predicate Balanced(s: string) {
    Level(s) == 0 && forall k | 0 <= k <= |s| :: Level(s[..k]) >= 0
  }

  /** Every comma is inside parentheses. */
  ghost predicate NoTopComma(s: string) {
    forall i | 0 <= i < |s| && s[i] == ',' :: Level(s[..i]) > 0
  }

  lemma LevelNext(s: string, i: nat)
    requires i < |s|
    ensures Level(s[..i + 1]) == Level(s[..i]) + if s[i] == '(' then 1 else if s[i] == ')' then -1 else 0
  {
    assert s[..i + 1][..i] == s[..i];
  }

  lemma {:induction false} LevelConcat(a: string, b: string)
    ensures Level(a + b) == Level(a) + Level(b)
  {
    if b == "" {
      assert a + b == a;
    } else {
      var n := |b| - 1;
      LevelConcat(a, b[..n]);
      assert (a + b)[..|a| + n] == a + b[..n];
    }
  }

  /** `usize::saturating_sub(1)`. */
  function SaturatingDecrement(n: nat): nat {
    if n == 0 then 0 else n - 1
  }

  /** Where the parenthesis opened by the first character closes. */
  ghost predicate Closes(s: string, k: nat) {
    1 <= k < |s| && s[k] == ')' && Balanced(s[1..k])
  }

  lemma ClosesOnce(s: string, j: nat, k: nat)
    requires Closes(s, j) && Closes(s, k)
    ensures j == k
  {
    if j < k {
      CannotContinue(s, j, k);
    } else if k < j {
      CannotContinue(s, k, j);
    }
  }

  lemma CannotContinue(s: string, j: nat, k: nat)
    requires Closes(s, j) && j < k < |s|
    ensures !Balanced(s[1..k])
  {
    var body := s[1..k];
    LevelNext(body, j - 1);
    assert body[..j - 1] == s[1..j];
    assert Level(body[..j]) == -1;
  }

  method FindClose(s: string) returns (r: Option<nat>)
    requires s != "" && s[0] == '('
    ensures r.Some? ==> Closes(s, r.value)
    ensures r.None? ==> forall k: nat :: !Closes(s, k)
  {
    var depth: nat := 0;
    var offset := 0;
    while offset < |s|
      invariant offset <= |s|
      invariant offset == 0 ==> depth == 0
      invariant offset > 0 ==> depth == 1 + Level(s[1..offset])
      invariant forall k | 1 <= k <= offset :: Level(s[1..k]) >= 0
      invariant forall k: nat | k < offset :: !Closes(s, k)
    {
      if offset > 0 {
        LevelNext(s[1..], offset - 1);
        assert s[1..][..offset] == s[1..offset + 1] && s[1..][..offset - 1] == s[1..offset];
      }
      if s[offset] == '(' {
        depth := depth + 1;
      } else if s[offset] == ')' {
        assert depth > 0;
        depth := SaturatingDecrement(depth);
        if depth == 0 {
          assert forall k | 0 <= k <= offset - 1 :: s[1..offset][..k] == s[1..k + 1];
          return Some(offset);
        }
      }
      offset := offset + 1;
    }
    return None;
  }

  /******* Top-level commas *******/

  /** `spans` are the pieces of `body` between its top-level commas. */
  ghost predicate IsSplit(body: string, spans: seq<string>) {
    && |spans| >= 1
    && Join(spans, ',') == body
    && (forall k | 0 <= k < |spans| :: NoTopComma(spans[k]))
    && (forall k | 0 <= k < |spans| - 1 :: Level(spans[k]) == 0)
  }

  lemma {:induction false} JoinLast(spans: seq<string>, last: string)
    ensures Join(spans + [last], ',') == (if spans == [] then "" else Join(spans, ',') + ",") + last
  {
    var all := spans + [last];
    if |spans| == 1 {
      assert all[1..] == [last];
    } else if |spans| > 1 {
      assert all[1..] == spans[1..] + [last];
      JoinLast(spans[1..], last);
    }
  }

  function Joined(spans: seq<string>): string {
    if spans == [] then "" else Join(spans, ',') + ","
  }

  /** The splitting loop: `spans` are cut, and `body[start..offset]` is the span being read at depth `depth`. */
  ghost predicate Splitting(body: string, spans: seq<string>, start: nat, offset: nat, depth: nat) {
    && start <= offset <= |body|
    && depth == Level(body[start..offset]) == Level(body[..offset])
    && NoTopComma(body[start..offset])
    && Joined(spans) == body[..start]
    && (forall k | 0 <= k < |spans| :: NoTopComma(spans[k]) && Level(spans[k]) == 0)
  }

  lemma SplittingNext(body: string, spans: seq<string>, start: nat, offset: nat, depth: nat)
    requires Balanced(body) && Splitting(body, spans, start, offset, depth) && offset < |body|
    requires body[offset] != ',' || depth > 0
    ensures body[offset] == ')' ==> depth > 0
    ensures Level(body[..offset + 1]) >= 0
    ensures Splitting(body, spans, start, offset + 1, Level(body[..offset + 1]))
  {
    LevelNext(body, offset);
    var span, c := body[start..offset + 1], body[offset];
    LevelNext(span, offset - start);
    assert span[..offset - start] == body[start..offset] && span[..offset + 1 - start] == span;
    forall i | 0 <= i < |span| && span[i] == ',' ensures Level(span[..i]) > 0 {
      if i < offset - start {
        assert span[..i] == body[start..offset][..i];
      }
    }
  }

  lemma SplittingCut(body: string, spans: seq<string>, start: nat, offset: nat)
    requires Splitting(body, spans, start, offset, 0) && offset < |body| && body[offset] == ','
    ensures Splitting(body, spans + [body[start..offset]], offset + 1, offset + 1, 0)
  {
    LevelNext(body, offset);
    JoinLast(spans, body[start..offset]);
    assert body[..offset + 1] == body[..start] + body[start..offset] + ",";
  }

  method SplitTopLevel(body: string) returns (spans: seq<string>)
    requires Balanced(body)
    ensures IsSplit(body, spans)
  {
    var depth: nat := 0;
    var start := 0;
    spans := [];
    var offset := 0;
    while offset < |body|
      invariant Splitting(body, spans, start, offset, depth)
    {
      LevelNext(body, offset);
      if body[offset] == ',' && depth == 0 {
        SplittingCut(body, spans, start, offset);
        spans := spans + [body[start..offset]];
        start := offset + 1;
      } else {
        SplittingNext(body, spans, start, offset, depth);
        if body[offset] == '(' {
          depth := depth + 1;
        } else if body[offset] == ')' {
          depth := SaturatingDecrement(depth);
        }
      }
      offset := offset + 1;
    }
    JoinLast(spans, body[start..]);
    spans := spans + [body[start..]];
    assert body[..start] + body[start..] == body;
    assert body[start..offset] == body[start..];
  }

  lemma {:induction false} SplitUnique(body: string, a: seq<string>, b: seq<string>)
    requires IsSplit(body, a) && IsSplit(body, b)
    ensures a == b
    decreases |a|
  {
    if |a[0]| < |b[0]| {
      FirstSpanEnds(body, a, b);
    } else if |b[0]| < |a[0]| {
      FirstSpanEnds(body, b, a);
    } else {
      FirstSpan(body, a);
      FirstSpan(body, b);
      assert a[0] == body[..|a[0]|] == b[0];
      assert |a| > 1 <==> |a[0]| < |body|;
      assert |b| > 1 <==> |b[0]| < |body|;
      if |a| > 1 {
        SplitUnique(body[|a[0]| + 1..], a[1..], b[1..]);
      }
      assert a == [a[0]] + a[1..] && b == [b[0]] + b[1..];
    }
  }

  lemma FirstSpan(body: string, a: seq<string>)
    requires IsSplit(body, a)
    ensures |a[0]| <= |body| && a[0] == body[..|a[0]|]
    ensures |a| > 1 <==> |a[0]| < |body|
    ensures |a| > 1 ==> body[|a[0]|] == ',' && IsSplit(body[|a[0]| + 1..], a[1..])
  {
    if |a| > 1 {
      assert body == a[0] + "," + Join(a[1..], ',');
      assert body[|a[0]| + 1..] == Join(a[1..], ',');
      assert forall k | 0 <= k < |a| - 1 :: a[1..][k] == a[k + 1];
    } else {
      assert body == a[0];
    }
  }

  lemma NoCommaAt(s: string, n: nat)
    requires NoTopComma(s)
    ensures n < |s| && Level(s[..n]) == 0 ==> s[n] != ','
  {
  }

  /** A first span cannot stretch over a comma where another one ends. */
  lemma FirstSpanEnds(body: string, a: seq<string>, b: seq<string>)
    requires IsSplit(body, a) && IsSplit(body, b)
    ensures !(|a[0]| < |b[0]|)
  {
    FirstSpan(body, a);
    FirstSpan(body, b);
    NoCommaAt(b[0], |a[0]|);
    assert forall i | 0 <= i < |b[0]| :: b[0][..i] == body[..i];
  }
}
