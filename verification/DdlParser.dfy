/** The whole DDL reader: every text it accepts, and the texts the schema renders. */
module DdlParser {
  import opened Prelude
  import opened Sequences
  import opened Text
  import opened Ddl

  /******* Columns *******/

  /** One span between commas: blank spans declare nothing. */
  function ReadColumn(span: string): Result<seq<Column>, DdlError> {
    var text := Trim(span);
    if text == "" then Ok([])
    else
      match FindSpace(text)
      case None => Err(ColumnWithoutType)
      case Some(k) => Ok([Column(text[..k], Trim(text[k..]))])
  }

  function ReadColumns(spans: seq<string>): Result<seq<Column>, DdlError> {
    if spans == [] then Ok([])
    else
      var n := |spans| - 1;
      match ReadColumns(spans[..n])
      case Err(e) => Err(e)
      case Ok(columns) =>
        match ReadColumn(spans[n])
        case Err(e) => Err(e)
        case Ok(last) => Ok(columns + last)
  }

  lemma {:induction false} ErrorsStay(spans: seq<string>, n: nat)
    requires n <= |spans| && ReadColumns(spans[..n]).Err?
    ensures ReadColumns(spans) == ReadColumns(spans[..n])
  {
    if n < |spans| {
      assert spans[..|spans| - 1][..n] == spans[..n];
      ErrorsStay(spans[..|spans| - 1], n);
    } else {
      assert spans[..n] == spans;
    }
  }

  method CollectColumns(spans: seq<string>) returns (r: Result<seq<Column>, DdlError>)
    ensures r == ReadColumns(spans)
  {
    var columns: seq<Column> := [];
    var i := 0;
    while i < |spans|
      invariant i <= |spans| && ReadColumns(spans[..i]) == Ok(columns)
    {
      assert spans[..i + 1][..i] == spans[..i];
      var span := ReadColumn(spans[i]);
      if span.Err? {
        ErrorsStay(spans, i + 1);
        return Err(span.error);
      }
      columns := columns + span.value;
      i := i + 1;
    }
    assert spans[..i] == spans;
    return Ok(columns);
  }

  /******* The declaration *******/

  function AfterMarker(ddl: string): Option<string> {
    match Find(ddl, "?.")
    case None => None
    case Some(i) => Some(ddl[i + 2..])
  }

  /** `list` starts at a parenthesis that encloses `body`. */
  ghost predicate Encloses(list: string, body: string) {
    exists k: nat :: Closes(list, k) && body == list[1..k]
  }

  /** After the marker come the name `table` and, at the first parenthesis, the column list `body`. */
  ghost predicate Lists(rest: string, table: string, body: string) {
    && NameEnd(rest).Some? && table == rest[..NameEnd(rest).value]
    && IndexOf(rest, '(').Some? && Encloses(rest[IndexOf(rest, '(').value..], body)
  }

  ghost predicate Declares(ddl: string, table: string, columns: seq<Column>) {
    AfterMarker(ddl).Some? && columns != []
    && exists body, spans ::
      Lists(AfterMarker(ddl).value, table, body) && IsSplit(body, spans) && ReadColumns(spans) == Ok(columns)
  }

  lemma EnclosesOnce(list: string, a: string, b: string)
    requires Encloses(list, a) && Encloses(list, b)
    ensures a == b
  {
    var j: nat :| Closes(list, j) && a == list[1..j];
    var k: nat :| Closes(list, k) && b == list[1..k];
    ClosesOnce(list, j, k);
  }

  /** A text declares what its one column list reads as, and nothing else. */
  lemma OneReading(ddl: string, table: string, body: string, spans: seq<string>)
    requires AfterMarker(ddl).Some? && Lists(AfterMarker(ddl).value, table, body) && IsSplit(body, spans)
    ensures forall t, columns ::
      Declares(ddl, t, columns) <==> t == table && ReadColumns(spans) == Ok(columns) && columns != []
  {
    var rest := AfterMarker(ddl).value;
    forall t, other, others | Lists(rest, t, other) && IsSplit(other, others)
      ensures t == table && others == spans
    {
      EnclosesOnce(rest[IndexOf(rest, '(').value..], body, other);
      SplitUnique(body, spans, others);
    }
  }

  /** The first thing that keeps `ddl` from being read. */
  ghost predicate Fault(ddl: string, e: DdlError) {
    if AfterMarker(ddl).None? then e == NoTableName
    else
      var rest := AfterMarker(ddl).value;
      if NameEnd(rest).None? then e == UnterminatedName
      else if IndexOf(rest, '(').None? then e == NoColumnList
      else
        var list := rest[IndexOf(rest, '(').value..];
        if forall k: nat :: !Closes(list, k) then e == UnclosedColumnList
        else
          exists body, spans ::
            && Encloses(list, body) && IsSplit(body, spans)
            && (ReadColumns(spans) == Err(e) || (ReadColumns(spans) == Ok([]) && e == NoColumns))
  }

  method DeclaredColumns(ddl: string) returns (r: Result<(string, seq<Column>), DdlError>)
    ensures r.Ok? ==> Declares(ddl, r.value.0, r.value.1)
    ensures r.Err? ==> forall table, columns :: !Declares(ddl, table, columns)
    ensures r.Err? ==> Fault(ddl, r.error)
  {
    var after := AfterMarker(ddl);
    if after.None? {
      return Err(NoTableName);
    }
    var rest := after.value;
    var nameEnd := NameEnd(rest);
    if nameEnd.None? {
      return Err(UnterminatedName);
    }
    var table := rest[..nameEnd.value];
    var start := IndexOf(rest, '(');
    if start.None? {
      return Err(NoColumnList);
    }
    var list := rest[start.value..];
    var close := FindClose(list);
    if close.None? {
      return Err(UnclosedColumnList);
    }
    var body := list[1..close.value];
    var spans := SplitTopLevel(body);
    var columns := CollectColumns(spans);
    OneReading(ddl, table, body, spans);
    if columns.Err? {
      return Err(columns.error);
    }
    if columns.value == [] {
      return Err(NoColumns);
    }
    return Ok((table, columns.value));
  }

  /******* Rendering *******/

  /** The blanks around a column's name and type. */
  datatype Slot = Slot(lead: string, gap: string, trail: string)

  ghost predicate SlotOk(s: Slot) {
    Blank(s.lead) && Blank(s.gap) && s.gap != "" && Blank(s.trail)
  }

  ghost predicate ColumnOk(c: Column) {
    && c.name != ""
    && (forall x | x in c.name :: !IsSpace(x) && x != '(' && x != ')' && x != ',')
    && c.kind != ""
    && !IsSpace(c.kind[0]) && !IsSpace(c.kind[|c.kind| - 1])
    && Balanced(c.kind) && NoTopComma(c.kind)
  }

  function RenderColumn(c: Column, s: Slot): string {
    s.lead + (c.name + s.gap + c.kind) + s.trail
  }

  function RenderColumns(columns: seq<Column>, slots: seq<Slot>): (r: seq<string>)
    requires |slots| == |columns|
    ensures |r| == |columns| && forall i | 0 <= i < |r| :: r[i] == RenderColumn(columns[i], slots[i])
  {
    seq(|columns|, i requires 0 <= i < |columns| => RenderColumn(columns[i], slots[i]))
  }

  lemma {:induction false} TrimStartBlank(lead: string, s: string)
    requires Blank(lead) && s != "" && !IsSpace(s[0])
    ensures TrimStart(lead + s) == s
  {
    if lead == "" {
      assert lead + s == s;
    } else {
      assert lead[0] in lead && (lead + s)[1..] == lead[1..] + s;
      TrimStartBlank(lead[1..], s);
    }
  }

  lemma {:induction false} TrimEndBlank(s: string, trail: string)
    requires Blank(trail) && s != "" && !IsSpace(s[|s| - 1])
    ensures TrimEnd(s + trail) == s
  {
    if trail == "" {
      assert s + trail == s;
    } else {
      var n := |trail| - 1;
      assert trail[n] in trail && (s + trail)[..|s| + n] == s + trail[..n];
      TrimEndBlank(s, trail[..n]);
    }
  }

  lemma TrimBlank(lead: string, s: string, trail: string)
    requires Blank(lead) && Blank(trail) && s != "" && !IsSpace(s[0]) && !IsSpace(s[|s| - 1])
    ensures Trim(lead + s + trail) == s
  {
    assert lead + s + trail == lead + (s + trail);
    TrimStartBlank(lead, s + trail);
    TrimEndBlank(s, trail);
  }

  lemma FirstSpace(name: string, more: string)
    requires (forall x | x in name :: !IsSpace(x)) && more != "" && IsSpace(more[0])
    ensures FindSpace(name + more) == Some(|name|)
  {
    var text := name + more;
    assert text[|name|] == more[0];
    assert forall i | 0 <= i < |name| :: text[i] == name[i] && name[i] in name;
  }

  lemma ReadRendered(c: Column, s: Slot)
    requires ColumnOk(c) && SlotOk(s)
    ensures ReadColumn(RenderColumn(c, s)) == Ok([c])
  {
    var text := c.name + (s.gap + c.kind);
    assert c.name + s.gap + c.kind == text;
    assert text[0] == c.name[0] && c.name[0] in c.name && text[|text| - 1] == c.kind[|c.kind| - 1];
    TrimBlank(s.lead, text, s.trail);
    assert s.gap[0] in s.gap;
    FirstSpace(c.name, s.gap + c.kind);
    assert text[..|c.name|] == c.name && text[|c.name|..] == s.gap + c.kind;
    TrimBlank(s.gap, c.kind, "");
    assert s.gap + c.kind + "" == s.gap + c.kind;
  }

  /** Balanced, with no comma outside parentheses. */
  ghost predicate Quiet(s: string) {
    Balanced(s) && NoTopComma(s)
  }

  lemma BalancedConcat(a: string, b: string)
    requires Balanced(a) && Balanced(b)
    ensures Balanced(a + b)
  {
    var s := a + b;
    LevelConcat(a, b);
    forall k | 0 <= k <= |s| ensures Level(s[..k]) >= 0 {
      if k <= |a| {
        assert s[..k] == a[..k];
      } else {
        assert s[..k] == a + b[..k - |a|];
        LevelConcat(a, b[..k - |a|]);
      }
    }
  }

  lemma QuietConcat(a: string, b: string)
    requires Quiet(a) && Quiet(b)
    ensures Quiet(a + b)
  {
    BalancedConcat(a, b);
    var s := a + b;
    forall i | 0 <= i < |s| && s[i] == ',' ensures Level(s[..i]) > 0 {
      if i < |a| {
        assert s[..i] == a[..i];
      } else {
        assert s[..i] == a + b[..i - |a|];
        LevelConcat(a, b[..i - |a|]);
      }
    }
  }

  lemma {:induction false} FlatLevel(s: string)
    requires forall c | c in s :: c != '(' && c != ')'
    ensures Level(s) == 0
  {
    if s != "" {
      var front := s[..|s| - 1];
      assert s[|s| - 1] in s;
      forall c | c in front ensures c != '(' && c != ')' {
        assert c in s;
      }
      FlatLevel(front);
    }
  }

  lemma FlatQuiet(s: string)
    requires forall c | c in s :: c != '(' && c != ')' && c != ','
    ensures Quiet(s)
  {
    FlatLevel(s);
    forall k | 0 <= k <= |s| ensures Level(s[..k]) == 0 {
      assert forall c | c in s[..k] :: c in s;
      FlatLevel(s[..k]);
    }
    assert forall i | 0 <= i < |s| :: s[i] in s;
  }

  lemma RenderedIsQuiet(c: Column, s: Slot)
    requires ColumnOk(c) && SlotOk(s)
    ensures Quiet(RenderColumn(c, s))
  {
    FlatQuiet(s.lead);
    FlatQuiet(c.name);
    FlatQuiet(s.gap);
    FlatQuiet(s.trail);
    QuietConcat(c.name, s.gap);
    QuietConcat(c.name + s.gap, c.kind);
    QuietConcat(s.lead, c.name + s.gap + c.kind);
    QuietConcat(s.lead + (c.name + s.gap + c.kind), s.trail);
  }

  lemma {:induction false} JoinBalanced(spans: seq<string>)
    requires |spans| >= 1 && forall k | 0 <= k < |spans| :: Quiet(spans[k])
    ensures Balanced(Join(spans, ','))
  {
    if |spans| > 1 {
      JoinBalanced(spans[1..]);
      CommaBalanced();
      BalancedConcat(spans[0], ",");
      BalancedConcat(spans[0] + ",", Join(spans[1..], ','));
    }
  }

  lemma CommaBalanced()
    ensures Balanced(",")
  {
    FlatLevel(",");
    FlatLevel("");
    assert ","[..0] == "" && ","[..1] == ",";
  }

  lemma {:induction false} ReadNext(spans: seq<string>, columns: seq<Column>, span: string, c: Column)
    requires ReadColumns(spans) == Ok(columns) && ReadColumn(span) == Ok([c])
    ensures ReadColumns(spans + [span]) == Ok(columns + [c])
  {
    assert (spans + [span])[..|spans|] == spans;
  }

  lemma {:induction false} ReadAll(spans: seq<string>, columns: seq<Column>)
    requires |spans| == |columns| && forall i | 0 <= i < |spans| :: ReadColumn(spans[i]) == Ok([columns[i]])
    ensures ReadColumns(spans) == Ok(columns)
  {
    if columns != [] {
      var n := |columns| - 1;
      ReadAll(spans[..n], columns[..n]);
      ReadNext(spans[..n], columns[..n], spans[n], columns[n]);
      LastApart(spans);
      LastApart(columns);
    }
  }

  lemma ReadRenderedColumns(columns: seq<Column>, slots: seq<Slot>)
    requires |slots| == |columns|
    requires forall i | 0 <= i < |columns| :: ColumnOk(columns[i]) && SlotOk(slots[i])
    ensures ReadColumns(RenderColumns(columns, slots)) == Ok(columns)
  {
    var spans := RenderColumns(columns, slots);
    forall i | 0 <= i < |spans| ensures ReadColumn(spans[i]) == Ok([columns[i]]) {
      ReadRendered(columns[i], slots[i]);
    }
    ReadAll(spans, columns);
  }

  lemma RenderedSplits(columns: seq<Column>, slots: seq<Slot>)
    requires |slots| == |columns| >= 1
    requires forall i | 0 <= i < |columns| :: ColumnOk(columns[i]) && SlotOk(slots[i])
    ensures var spans := RenderColumns(columns, slots);
      Balanced(Join(spans, ',')) && IsSplit(Join(spans, ','), spans)
  {
    var spans := RenderColumns(columns, slots);
    forall k | 0 <= k < |spans| ensures Quiet(spans[k]) {
      RenderedIsQuiet(columns[k], slots[k]);
    }
    JoinBalanced(spans);
  }

  lemma NameEndsAt(table: string, more: string)
    requires (forall c | c in table :: !EndsName(c)) && more != "" && EndsName(more[0])
    ensures NameEnd(table + more) == Some(|table|)
  {
    var text := table + more;
    assert text[|table|] == more[0];
    assert forall i | 0 <= i < |table| :: text[i] == table[i] && table[i] in table;
  }

  lemma ListEncloses(body: string, tail: string)
    requires Balanced(body)
    ensures Encloses("(" + body + (")" + tail), body)
  {
    var list := "(" + body + (")" + tail);
    assert list[1..|body| + 1] == body && list[|body| + 1] == ')';
    assert Closes(list, |body| + 1);
  }

  lemma RestLists(table: string, gap: string, body: string, tail: string)
    requires (forall c | c in table :: !EndsName(c)) && Blank(gap) && Balanced(body)
    ensures Lists(table + gap + ("(" + body + (")" + tail)), table, body)
  {
    var list := "(" + body + (")" + tail);
    var rest := table + gap + list;
    assert rest == table + (gap + list);
    assert gap != "" ==> gap[0] in gap;
    NameEndsAt(table, gap + list);
    assert rest[..|table|] == table;
    assert '(' !in table && '(' !in gap by {
      assert EndsName('(') && !IsSpace('(');
    }
    IndexOfJoin(table + gap, '(', body + (")" + tail));
    assert rest == (table + gap) + ['('] + (body + (")" + tail));
    assert rest[|table + gap|..] == list;
    ListEncloses(body, tail);
  }

  lemma MarkerFound(head: string, rest: string)
    requires '?' !in head
    ensures AfterMarker(head + "?." + rest) == Some(rest)
  {
    var s := head + "?." + rest;
    assert s[|head|..|head| + 2] == "?.";
    forall i: nat | i < |head| ensures !OccursAt(s, "?.", i) {
      assert s[i] in head;
      NoMatchOnFirst(s, "?.", i);
    }
    FindIs(s, "?.", |head|);
    assert s[|head| + 2..] == rest;
  }

  function Render(
      head: string, table: string, gap: string, columns: seq<Column>, slots: seq<Slot>, tail: string): string
    requires |slots| == |columns|
  {
    head + "?." + (table + gap + ("(" + Join(RenderColumns(columns, slots), ',') + (")" + tail)))
  }

  /** A rendered declaration declares exactly the table and columns it was rendered from. */
  lemma RenderedRoundTrip(
      head: string, table: string, gap: string, columns: seq<Column>, slots: seq<Slot>, tail: string)
    requires '?' !in head && (forall c | c in table :: !EndsName(c)) && Blank(gap)
    requires |slots| == |columns| >= 1
    requires forall i | 0 <= i < |columns| :: ColumnOk(columns[i]) && SlotOk(slots[i])
    ensures forall t, cs :: Declares(Render(head, table, gap, columns, slots, tail), t, cs) <==> t == table && cs == columns
  {
    var spans := RenderColumns(columns, slots);
    RenderedSplits(columns, slots);
    ReadRenderedColumns(columns, slots);
    var body := Join(spans, ',');
    RestLists(table, gap, body, tail);
    MarkerFound(head, table + gap + ("(" + body + (")" + tail)));
    OneReading(Render(head, table, gap, columns, slots, tail), table, body, spans);
  }

  /******* Comparing with the live table *******/

  /** The first differing position of two lists, if any. */
  function FirstMismatch(actual: seq<Column>, expected: seq<Column>): (r: Option<nat>)
    ensures r.None? <==> actual == expected
    ensures r.Some? ==>
      var i := r.value;
      && i <= |actual| && i <= |expected| && actual[..i] == expected[..i]
      && (i == |actual| || i == |expected| || actual[i] != expected[i])
      && (i < |actual| || i < |expected|)
  {
    if actual == [] || expected == [] then if |actual| == |expected| then None else Some(0)
    else if actual[0] != expected[0] then Some(0)
    else
      assert actual == [actual[0]] + actual[1..] && expected == [expected[0]] + expected[1..];
      match FirstMismatch(actual[1..], expected[1..])
      case None => None
      case Some(i) =>
        assert actual[..i + 1] == [actual[0]] + actual[1..][..i];
        assert expected[..i + 1] == [expected[0]] + expected[1..][..i];
        Some(i + 1)
  }
}
