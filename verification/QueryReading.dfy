/** Every clause the compiler writes reads back as the condition of its filter. */
module QueryReading {
  import opened Prelude
  import opened Sequences
  import opened Text
  import opened QueryModel
  import opened QueryCompiler
  import opened QueryStatement
  import opened QueryRendering
  import opened QueryMeaning

  /******* The text of a clause *******/

  lemma {:induction false} RenderConcat(backend: Backend, a: Sql, b: Sql)
    ensures Render(backend, a + b) == Render(backend, a) + Render(backend, b)
  {
    if a == [] {
      assert a + b == b && Render(backend, a) == "";
    } else {
      RenderConcat(backend, a[1..], b);
      RenderGrown(backend, a[0], a[1..], b);
      assert a == [a[0]] + a[1..];
    }
  }

  lemma {:induction false} RenderGrown(backend: Backend, p: Piece, a: Sql, b: Sql)
    requires Render(backend, a + b) == Render(backend, a) + Render(backend, b)
    ensures Render(backend, [p] + a + b) == Render(backend, [p] + a) + Render(backend, b)
  {
    RenderFront(backend, p, a);
    RenderFront(backend, p, a + b);
    Grouped([p], a, b);
    Grouped(PieceText(backend, p), Render(backend, a), Render(backend, b));
  }

  lemma {:induction false} RenderFront(backend: Backend, p: Piece, rest: Sql)
    ensures Render(backend, [p] + rest) == PieceText(backend, p) + Render(backend, rest)
  {
    assert ([p] + rest)[1..] == rest;
  }

  lemma RenderOne(backend: Backend, p: Piece)
    ensures Render(backend, [p]) == PieceText(backend, p)
  {
    assert [p][1..] == [];
  }

  function HoleText(backend: Backend, h: Placeholder): string {
    PieceText(backend, Hole(h))
  }

  function HolesText(backend: Backend, holes: seq<Placeholder>, separator: string): string {
    if holes == [] then ""
    else if |holes| == 1 then HoleText(backend, holes[0])
    else HoleText(backend, holes[0]) + separator + HolesText(backend, holes[1..], separator)
  }

  lemma {:induction false} HolesTextNext(backend: Backend, holes: seq<Placeholder>, h: Placeholder, separator: string)
    requires holes != []
    ensures HolesText(backend, holes + [h], separator)
      == HolesText(backend, holes, separator) + separator + HoleText(backend, h)
  {
    var all := holes + [h];
    if |holes| == 1 {
      assert all[1..] == [h];
    } else {
      assert all[1..] == holes[1..] + [h];
      HolesTextNext(backend, holes[1..], h, separator);
      Regroup(HoleText(backend, holes[0]) + separator, HolesText(backend, holes[1..], separator), separator, HoleText(backend, h));
    }
  }

  lemma {:induction false} JoinedText(backend: Backend, holes: seq<Placeholder>, separator: string)
    ensures Render(backend, Joined(HoleList(holes), separator)) == HolesText(backend, holes, separator)
  {
    if holes != [] {
      var front, last := holes[..|holes| - 1], holes[|holes| - 1];
      assert holes == front + [last];
      JoinedText(backend, front, separator);
      NextHoleText(backend, front, last, separator);
    }
  }

  lemma {:induction false} OneHoleText(backend: Backend, h: Placeholder, separator: string)
    ensures Render(backend, Joined(HoleList([h]), separator)) == HolesText(backend, [h], separator)
  {
    HoleListNext([], h);
    RenderOne(backend, Hole(h));
  }

  lemma {:induction false} NextHoleText(backend: Backend, front: seq<Placeholder>, last: Placeholder, separator: string)
    requires Render(backend, Joined(HoleList(front), separator)) == HolesText(backend, front, separator)
    ensures Render(backend, Joined(HoleList(front + [last]), separator)) == HolesText(backend, front + [last], separator)
  {
    if front == [] {
      assert front + [last] == [last];
      OneHoleText(backend, last, separator);
    } else {
      HoleListNext(front, last);
      RenderNext(backend, HoleList(front), [Hole(last)], separator);
      RenderOne(backend, Hole(last));
      HolesTextNext(backend, front, last, separator);
    }
  }

  lemma HoleListNext(front: seq<Placeholder>, last: Placeholder)
    ensures HoleList(front + [last]) == HoleList(front) + [[Hole(last)]]
  {
    assert (front + [last])[..|front|] == front;
  }

  lemma RenderNext(backend: Backend, parts: seq<Sql>, last: Sql, separator: string)
    requires parts != []
    ensures Render(backend, Joined(parts + [last], separator))
      == Render(backend, Joined(parts, separator)) + separator + Render(backend, last)
  {
    JoinedNext(parts, last, separator);
    RenderConcat(backend, Joined(parts, separator) + [Fixed(separator)], last);
    RenderConcat(backend, Joined(parts, separator), [Fixed(separator)]);
    RenderOne(backend, Fixed(separator));
  }

  lemma JoinedNext(parts: seq<Sql>, last: Sql, separator: string)
    requires parts != []
    ensures Joined(parts + [last], separator) == Joined(parts, separator) + [Fixed(separator)] + last
  {
    assert (parts + [last])[..|parts|] == parts;
  }

  lemma PredicateText(backend: Backend, op: Operator, e: string, holes: seq<Placeholder>)
    ensures Render(backend, Predicate(backend, op, e, holes))
      == QueryCompiler.Before(backend, op, e)
         + HolesText(backend, holes, if op == Between then " AND " else ", ")
         + After(backend, op)
  {
    var before, after := QueryCompiler.Before(backend, op, e), After(backend, op);
    var separator := if op == Between then " AND " else ", ";
    RenderThree(backend, before, Joined(HoleList(holes), separator), after);
    JoinedText(backend, holes, separator);
  }

  lemma RenderThree(backend: Backend, before: string, middle: Sql, after: string)
    ensures Render(backend, [Fixed(before)] + middle + [Fixed(after)]) == before + Render(backend, middle) + after
  {
    RenderConcat(backend, [Fixed(before)] + middle, [Fixed(after)]);
    RenderConcat(backend, [Fixed(before)], middle);
    RenderOne(backend, Fixed(before));
    RenderOne(backend, Fixed(after));
  }

  /******* Placeholders *******/

  function ConversionOf(backend: Backend, kind: FieldKind): Conversion {
    match (kind, backend)
    case (TextKind, _) => AsIs
    case (UuidKind, _) => ToUuid
    case (TimestampKind, _) => ToInstant
    case (_, ClickHouse) => AsIs
    case (IntegerKind, _) => ToInteger
    case (FloatKind, _) => ToFloat
    case (BooleanKind, _) => ToBoolean
    case (JsonKind, _) => ToJson
  }

  function SlotOf(backend: Backend, h: Placeholder): Slot {
    Slot(if backend == Postgres then Some(h.position) else None, ConversionOf(backend, h.kind))
  }

  function SlotsOf(backend: Backend, holes: seq<Placeholder>): (r: seq<Slot>)
    ensures |r| == |holes| && forall k | 0 <= k < |r| :: r[k] == SlotOf(backend, holes[k])
  {
    seq(|holes|, k requires 0 <= k < |holes| => SlotOf(backend, holes[k]))
  }

  /** Text that can follow a placeholder without becoming part of it. */
  predicate Follows(s: string) {
    s == "" || (!IsDigit(s[0]) && s[0] != ':')
  }

  lemma StartsWithSelf(a: string, rest: string)
    ensures StartsWith(a + rest, a) && (a + rest)[|a|..] == rest
  {
  }

  lemma NotAt(s: string, prefix: string, i: nat)
    requires i < |s| && i < |prefix| && s[i] != prefix[i]
    ensures !StartsWith(s, prefix)
  {
    assert |prefix| <= |s| ==> s[..|prefix|][i] == s[i];
  }

  lemma CastReadsBack(kind: FieldKind, rest: string)
    requires Follows(rest)
    ensures ReadCast(Cast(kind) + rest) == (ConversionOf(Postgres, kind), rest)
  {
    var s := Cast(kind) + rest;
    StartsWithSelf(Cast(kind), rest);
    match kind
    case UuidKind =>
    case TimestampKind => NotAt(s, "::UUID", 2);
    case IntegerKind => NotAt(s, "::UUID", 2); NotAt(s, "::TIMESTAMPTZ", 2);
    case FloatKind => FloatCastReads(rest);
    case BooleanKind => BooleanCastReads(rest);
    case JsonKind => JsonCastReads(rest);
    case TextKind => NoCastReads(rest);
  }

  lemma FloatCastReads(rest: string)
    ensures ReadCast("::DOUBLE PRECISION" + rest) == (ToFloat, rest)
  {
    var s := "::DOUBLE PRECISION" + rest;
    StartsWithSelf("::DOUBLE PRECISION", rest);
    NotAt(s, "::UUID", 2);
    NotAt(s, "::TIMESTAMPTZ", 2);
    NotAt(s, "::BIGINT", 2);
  }

  lemma BooleanCastReads(rest: string)
    ensures ReadCast("::BOOLEAN" + rest) == (ToBoolean, rest)
  {
    var s := "::BOOLEAN" + rest;
    StartsWithSelf("::BOOLEAN", rest);
    NotAt(s, "::UUID", 2);
    NotAt(s, "::TIMESTAMPTZ", 2);
    NotAt(s, "::BIGINT", 3);
    NotAt(s, "::DOUBLE PRECISION", 2);
  }

  lemma JsonCastReads(rest: string)
    ensures ReadCast("::JSONB" + rest) == (ToJson, rest)
  {
    var s := "::JSONB" + rest;
    StartsWithSelf("::JSONB", rest);
    NotAt(s, "::UUID", 2);
    NotAt(s, "::TIMESTAMPTZ", 2);
    NotAt(s, "::BIGINT", 2);
    NotAt(s, "::DOUBLE PRECISION", 2);
    NotAt(s, "::BOOLEAN", 2);
  }

  lemma NoCastReads(rest: string)
    requires Follows(rest)
    ensures ReadCast("" + rest) == (AsIs, rest)
  {
    assert "" + rest == rest;
    if rest != "" {
      NotAt(rest, "::UUID", 0);
      NotAt(rest, "::TIMESTAMPTZ", 0);
      NotAt(rest, "::BIGINT", 0);
      NotAt(rest, "::DOUBLE PRECISION", 0);
      NotAt(rest, "::BOOLEAN", 0);
      NotAt(rest, "::JSONB", 0);
    }
  }

  lemma NumberReadsBack(digits: string, tail: string)
    requires (forall c | c in digits :: IsDigit(c)) && !StartsWithDigit(tail)
    ensures var s := "$" + digits + tail;
      s[0] == '$' && LeadingDigits(s[1..]) == digits && s[1 + |digits|..] == tail
  {
    var s := "$" + digits + tail;
    assert s[1..] == digits + tail;
    LeadingDigitsEnd(digits, tail);
  }

  lemma Regroup(a: string, b: string, c: string, d: string)
    ensures a + b + c + d == a + b + (c + d) == a + (b + (c + d)) == a + (b + c + d)
  {
  }

  lemma ReadsAsNumber(s: string, digits: string, tail: string)
    requires s != "" && s[0] == '$' && LeadingDigits(s[1..]) == digits
    requires 1 + |digits| <= |s| && s[1 + |digits|..] == tail && forall c | c in digits :: IsDigit(c)
    ensures ReadSlot(Postgres, s) == Some((Slot(Some(Value(digits)), ReadCast(tail).0), ReadCast(tail).1))
  {
  }

  lemma PostgresSlotReads(h: Placeholder, rest: string)
    requires Follows(rest)
    ensures ReadSlot(Postgres, HoleText(Postgres, h) + rest) == Some((SlotOf(Postgres, h), rest))
  {
    DecimalReadsBack(h.position);
    CastIsPlain(h.kind);
    CastReadsBack(h.kind, rest);
    NumberAndCastRead(Decimal(h.position), Cast(h.kind), rest);
  }

  lemma NumberAndCastRead(digits: string, cast: string, rest: string)
    requires (forall c | c in digits :: IsDigit(c)) && !StartsWithDigit(cast) && Follows(rest)
    ensures ReadSlot(Postgres, "$" + digits + cast + rest)
      == Some((Slot(Some(Value(digits)), ReadCast(cast + rest).0), ReadCast(cast + rest).1))
  {
    var tail := cast + rest;
    assert cast == "" ==> tail == rest;
    NumberReadsBack(digits, tail);
    ReadsAsNumber("$" + digits + tail, digits, tail);
    Regroup("$", digits, cast, rest);
  }

  lemma ClickHouseSlotReads(h: Placeholder, rest: string)
    ensures ReadSlot(ClickHouse, HoleText(ClickHouse, h) + rest) == Some((SlotOf(ClickHouse, h), rest))
  {
    match h.kind
    case UuidKind =>
      assert HoleText(ClickHouse, h) == "toUUID(?)";
      StartsWithSelf("toUUID(?)", rest);
    case TimestampKind => InstantSlotReads(rest);
    case _ =>
      assert HoleText(ClickHouse, h) == "?";
      StartsWithSelf("?", rest);
  }

  lemma InstantSlotReads(rest: string)
    ensures ReadSlot(ClickHouse, Opening(TimestampKind) + "?" + Closing(TimestampKind) + rest)
      == Some((Slot(None, ToInstant), rest))
  {
    var text := "parseDateTime64BestEffort(?, 6, 'UTC')";
    assert Opening(TimestampKind) + "?" + Closing(TimestampKind) == text;
    StartsWithSelf(text, rest);
    NotAt(text + rest, "toUUID(?)", 0);
  }

  /** A placeholder reads back with its number and conversion, and nothing of what follows. */
  lemma SlotReads(backend: Backend, h: Placeholder, rest: string)
    requires Follows(rest)
    ensures ReadSlot(backend, HoleText(backend, h) + rest) == Some((SlotOf(backend, h), rest))
  {
    match backend
    case Postgres => PostgresSlotReads(h, rest);
    case ClickHouse => ClickHouseSlotReads(h, rest);
  }

  lemma OneReads(backend: Backend, shape: Shape, h: Placeholder, end: string)
    requires Follows(end)
    ensures ReadOne(backend, shape, HoleText(backend, h) + end, end) == Some(Condition(shape, SlotsOf(backend, [h])))
  {
    SlotReads(backend, h, end);
    assert SlotsOf(backend, [h]) == [SlotOf(backend, h)];
  }

  lemma LastSlotReads(backend: Backend, h: Placeholder)
    ensures ReadSlots(backend, HoleText(backend, h) + ")") == Some([SlotOf(backend, h)])
  {
    SlotReads(backend, h, ")");
  }

  lemma NextSlotReads(backend: Backend, h: Placeholder, tail: string, slots: seq<Slot>)
    requires ReadSlots(backend, tail) == Some(slots)
    ensures ReadSlots(backend, HoleText(backend, h) + (", " + tail)) == Some([SlotOf(backend, h)] + slots)
  {
    SlotReads(backend, h, ", " + tail);
    StartsWithSelf(", ", tail);
    assert |", " + tail| >= 2;
  }

  lemma {:induction false} SlotsRead(backend: Backend, holes: seq<Placeholder>)
    requires holes != []
    ensures ReadSlots(backend, HolesText(backend, holes, ", ") + ")") == Some(SlotsOf(backend, holes))
  {
    var h, rest := holes[0], holes[1..];
    if rest == [] {
      LastSlotReads(backend, h);
      assert SlotsOf(backend, holes) == [SlotOf(backend, h)];
    } else {
      SlotsRead(backend, rest);
      NextSlotReads(backend, h, HolesText(backend, rest, ", ") + ")", SlotsOf(backend, rest));
      Regroup(HoleText(backend, h), ", ", HolesText(backend, rest, ", "), ")");
      assert SlotsOf(backend, holes) == [SlotOf(backend, h)] + SlotsOf(backend, rest);
    }
  }

  lemma ListReads(backend: Backend, shape: Shape, holes: seq<Placeholder>)
    requires holes != []
    ensures ReadList(backend, shape, "(" + (HolesText(backend, holes, ", ") + ")")) == Some(Condition(shape, SlotsOf(backend, holes)))
  {
    SlotsRead(backend, holes);
    var list := HolesText(backend, holes, ", ") + ")";
    assert ("(" + list)[1..] == list;
  }

  lemma RangeReads(backend: Backend, low: Placeholder, high: Placeholder)
    ensures ReadRange(backend, HoleText(backend, low) + (" AND " + HoleText(backend, high)))
      == Some(Condition(Within, SlotsOf(backend, [low, high])))
  {
    var text := HoleText(backend, high);
    SlotReads(backend, low, " AND " + text);
    StartsWithSelf(" AND ", text);
    SlotReads(backend, high, "");
    assert text + "" == text;
    assert SlotsOf(backend, [low, high]) == [SlotOf(backend, low), SlotOf(backend, high)];
  }

  /******* Operators *******/

  /** The condition a filter with this operator is written as. */
  function ShapeOf(backend: Backend, op: Operator): Shape {
    match op
    case Eq => Compares(Equals)
    case NotEq => Compares(Differs)
    case Lt => Compares(Below)
    case Lte => Compares(NotAbove)
    case Gt => Compares(Above)
    case Gte => Compares(NotBelow)
    case Contains => if backend == Postgres then Matches(true, true) else Finds
    case BeginsWith => if backend == Postgres then Matches(false, true) else Starts
    case EndsWith => if backend == Postgres then Matches(true, false) else Ends
    case InList => OneOf
    case NotInList => NoneOf
    case IsNull => IsAbsent
    case IsNotNull => IsPresent
    case Between => Within
  }

  predicate Fitting(op: Operator, holes: seq<Placeholder>) {
    if op == IsNull || op == IsNotNull then holes == []
    else if op == Between then |holes| == 2
    else if op == InList || op == NotInList then holes != []
    else |holes| == 1
  }

  lemma WordReads(word: string, rest: string)
    requires ' ' !in word
    ensures Word(word + " " + rest) == (word, rest)
  {
    IndexOfJoin(word, ' ', rest);
    var s := word + " " + rest;
    assert s[..|word|] == word && s[|word| + 1..] == rest;
  }

  /** An expression, a blank and an operator are read as that operator. */
  lemma OperatorReads(backend: Backend, e: string, word: string, rest: string)
    requires ' ' !in word
    ensures Read(backend, e, e + " " + word + " " + rest) == ReadOperator(backend, word + " " + rest)
    ensures Word(word + " " + rest) == (word, rest)
  {
    WordReads(word, rest);
    var s := " " + (word + " " + rest);
    StartsWithSelf(e, s);
    assert e + " " + word + " " + rest == e + s;
    assert s[1..] == word + " " + rest;
  }

  predicate IsComparison(op: Operator) {
    op == Eq || op == NotEq || op == Lt || op == Lte || op == Gt || op == Gte
  }

  function ComparisonWord(op: Operator): string {
    match op
    case Eq => "="
    case NotEq => "<>"
    case Lt => "<"
    case Lte => "<="
    case Gt => ">"
    case _ => ">="
  }

  lemma ComparisonText(backend: Backend, op: Operator, e: string)
    requires IsComparison(op)
    ensures QueryCompiler.Before(backend, op, e) == e + " " + ComparisonWord(op) + " " && After(backend, op) == ""
    ensures ' ' !in ComparisonWord(op)
  {
  }

  lemma ComparisonReads(backend: Backend, op: Operator, rest: string)
    requires IsComparison(op)
    ensures ReadOperator(backend, ComparisonWord(op) + " " + rest) == ReadOne(backend, ShapeOf(backend, op), rest, "")
  {
    WordReads(ComparisonWord(op), rest);
  }

  lemma ReadsComparison(backend: Backend, op: Operator, e: string, holes: seq<Placeholder>)
    requires IsComparison(op) && |holes| == 1
    ensures Read(backend, e, Render(backend, Predicate(backend, op, e, holes)))
      == Some(Condition(ShapeOf(backend, op), SlotsOf(backend, holes)))
  {
    var rest := HoleText(backend, holes[0]);
    PredicateText(backend, op, e, holes);
    ComparisonText(backend, op, e);
    OperatorReads(backend, e, ComparisonWord(op), rest);
    ComparisonReads(backend, op, rest);
    OneReads(backend, ShapeOf(backend, op), holes[0], "");
    assert rest + "" == rest && holes == [holes[0]];
    assert Render(backend, Predicate(backend, op, e, holes)) == e + " " + ComparisonWord(op) + " " + rest;
  }

  lemma WordsOfLists(backend: Backend, e: string, list: string)
    ensures Read(backend, e, e + " " + "IN" + " " + list) == ReadList(backend, OneOf, list)
    ensures Read(backend, e, e + " " + "NOT" + " " + ("IN" + " " + list)) == ReadList(backend, NoneOf, list)
  {
    OperatorReads(backend, e, "IN", list);
    OperatorReads(backend, e, "NOT", "IN" + " " + list);
    WordReads("IN", list);
  }

  lemma ListText(e: string, items: string)
    ensures e + " IN (" + items + ")" == e + " " + "IN" + " " + ("(" + (items + ")"))
    ensures e + " NOT IN (" + items + ")" == e + " " + "NOT" + " " + ("IN" + " " + ("(" + (items + ")")))
  {
    assert " IN (" == " " + "IN" + " " + "(" && " NOT IN (" == " " + "NOT" + " " + "IN" + " " + "(";
  }

  lemma ReadsList(backend: Backend, op: Operator, e: string, holes: seq<Placeholder>)
    requires (op == InList || op == NotInList) && holes != []
    ensures Read(backend, e, Render(backend, Predicate(backend, op, e, holes)))
      == Some(Condition(ShapeOf(backend, op), SlotsOf(backend, holes)))
  {
    var items := HolesText(backend, holes, ", ");
    PredicateText(backend, op, e, holes);
    ListReads(backend, ShapeOf(backend, op), holes);
    WordsOfLists(backend, e, "(" + (items + ")"));
    ListText(e, items);
  }

  lemma WordsOfNull(backend: Backend, e: string, rest: string)
    ensures Read(backend, e, e + " " + "IS" + " " + rest) == ReadOperator(backend, "IS" + " " + rest)
    ensures Word("IS" + " " + rest) == ("IS", rest)
  {
    OperatorReads(backend, e, "IS", rest);
  }

  lemma IsReads(backend: Backend, s: string, rest: string)
    requires Word(s) == ("IS", rest)
    ensures rest == "NULL" ==> ReadOperator(backend, s) == Some(Condition(IsAbsent, []))
    ensures rest == "NOT NULL" ==> ReadOperator(backend, s) == Some(Condition(IsPresent, []))
  {
  }

  lemma NullReads(backend: Backend, e: string)
    ensures Read(backend, e, e + " " + "IS" + " " + "NULL") == Some(Condition(IsAbsent, []))
  {
    WordsOfNull(backend, e, "NULL");
    IsReads(backend, "IS" + " " + "NULL", "NULL");
  }

  lemma NotNullReads(backend: Backend, e: string)
    ensures Read(backend, e, e + " " + "IS" + " " + "NOT NULL") == Some(Condition(IsPresent, []))
  {
    WordsOfNull(backend, e, "NOT NULL");
    IsReads(backend, "IS" + " " + "NOT NULL", "NOT NULL");
  }

  lemma NullText(e: string)
    ensures e + " IS NULL" + "" + "" == e + " " + "IS" + " " + "NULL"
    ensures e + " IS NOT NULL" + "" + "" == e + " " + "IS" + " " + "NOT NULL"
  {
    assert " IS NULL" == " " + "IS" + " " + "NULL" && " IS NOT NULL" == " " + "IS" + " " + "NOT NULL";
  }

  lemma ReadsNull(backend: Backend, op: Operator, e: string)
    requires op == IsNull || op == IsNotNull
    ensures Read(backend, e, Render(backend, Predicate(backend, op, e, []))) == Some(Condition(ShapeOf(backend, op), []))
  {
    PredicateText(backend, op, e, []);
    NullReads(backend, e);
    NotNullReads(backend, e);
    NullText(e);
  }

  lemma WordOfRange(backend: Backend, e: string, rest: string)
    ensures Read(backend, e, e + " " + "BETWEEN" + " " + rest) == ReadRange(backend, rest)
  {
    OperatorReads(backend, e, "BETWEEN", rest);
  }

  lemma RangeText(e: string, low: string, high: string)
    ensures e + " BETWEEN " + (low + " AND " + high) + "" == e + " " + "BETWEEN" + " " + (low + (" AND " + high))
  {
    assert " BETWEEN " == " " + "BETWEEN" + " ";
  }

  lemma PairText(backend: Backend, low: Placeholder, high: Placeholder, separator: string)
    ensures HolesText(backend, [low, high], separator) == HoleText(backend, low) + separator + HoleText(backend, high)
  {
    assert [low, high][1..] == [high];
  }

  lemma ReadsRange(backend: Backend, e: string, low: Placeholder, high: Placeholder)
    ensures Read(backend, e, Render(backend, Predicate(backend, Between, e, [low, high])))
      == Some(Condition(Within, SlotsOf(backend, [low, high])))
  {
    PredicateText(backend, Between, e, [low, high]);
    PairText(backend, low, high, " AND ");
    RangeText(e, HoleText(backend, low), HoleText(backend, high));
    WordOfRange(backend, e, HoleText(backend, low) + (" AND " + HoleText(backend, high)));
    RangeReads(backend, low, high);
  }

  /******* Searching text *******/

  lemma PatternText(e: string, text: string)
    ensures e + "::TEXT ILIKE '%' || " + text + " || '%'" == e + ("::TEXT ILIKE " + ("'%' || " + (text + " || '%'")))
    ensures e + "::TEXT ILIKE '%' || " + text + "" == e + ("::TEXT ILIKE " + ("'%' || " + (text + "")))
    ensures e + "::TEXT ILIKE " + text + " || '%'" == e + ("::TEXT ILIKE " + ("" + (text + " || '%'")))
  {
    assert "::TEXT ILIKE '%' || " == "::TEXT ILIKE " + "'%' || ";
  }

  lemma IlikeReads(e: string, rest: string)
    ensures Read(Postgres, e, e + ("::TEXT ILIKE " + rest)) == ReadPattern(rest)
  {
    StartsWithSelf(e, "::TEXT ILIKE " + rest);
    StartsWithSelf("::TEXT ILIKE ", rest);
  }

  lemma ReadsPattern(op: Operator, e: string, h: Placeholder)
    requires IsTextOperator(op)
    ensures Read(Postgres, e, Render(Postgres, Predicate(Postgres, op, e, [h])))
      == Some(Condition(ShapeOf(Postgres, op), SlotsOf(Postgres, [h])))
  {
    var text := HoleText(Postgres, h);
    var leading, trailing := op != BeginsWith, op != QueryModel.EndsWith;
    PredicateText(Postgres, op, e, [h]);
    PatternText(e, text);
    IlikeReads(e, (if leading then "'%' || " else "") + (text + if trailing then " || '%'" else ""));
    PatternReads(leading, trailing, h);
  }

  lemma PatternReads(leading: bool, trailing: bool, h: Placeholder)
    ensures ReadPattern(
        (if leading then "'%' || " else "") + (HoleText(Postgres, h) + if trailing then " || '%'" else ""))
      == Some(Condition(Matches(leading, trailing), SlotsOf(Postgres, [h])))
  {
    var text, end := HoleText(Postgres, h), if trailing then " || '%'" else "";
    var rest := text + end;
    if leading {
      StartsWithSelf("'%' || ", rest);
    } else {
      assert "" + rest == rest && rest[0] == '$';
      NotAt(rest, "'%' || ", 0);
    }
    SlotReads(Postgres, h, end);
    OneReads(Postgres, Matches(leading, trailing), h, end);
  }

  /** An expression in front of a call that starts with another text leaves no blank behind it. */
  lemma {:induction false} CallHasNoBlank(opening: string, e: string, tail: string, j: nat)
    requires opening != "" && ' ' !in opening && StartsWith(opening + e + tail, e) && j <= |e|
    ensures j < |opening + e + tail| && (opening + e + tail)[j] != ' '
    decreases j
  {
    var s := opening + e + tail;
    if j < |opening| {
      assert s[j] == opening[j] && opening[j] in opening;
    } else {
      CallHasNoBlank(opening, e, tail, j - |opening|);
      assert s[..|e|] == e;
      assert s[j] == e[j - |opening|] == s[..|e|][j - |opening|];
    }
  }

  lemma CallIsCall(e: string, opening: string, tail: string)
    requires opening != "" && ' ' !in opening
    ensures Read(ClickHouse, e, opening + e + tail) == ReadCalls(e, opening + e + tail)
  {
    var s := opening + e + tail;
    if StartsWith(s, e) {
      CallHasNoBlank(opening, e, tail, |e|);
      assert s[|e|..][0] == s[|e|];
    }
  }

  lemma CallReads(e: string, shape: Shape, opening: string, closing: string, h: Placeholder, end: string)
    requires Follows(end)
    ensures ReadCall(e, opening + e + (closing + (HoleText(ClickHouse, h) + end)), shape, opening, closing, end)
      == Some(Condition(shape, SlotsOf(ClickHouse, [h])))
  {
    var rest := HoleText(ClickHouse, h) + end;
    StartsWithSelf(opening + e + closing, rest);
    Grouped(opening + e, closing, rest);
    OneReads(ClickHouse, shape, h, end);
  }

  lemma ReadsCall(op: Operator, e: string, h: Placeholder)
    requires IsTextOperator(op)
    ensures Read(ClickHouse, e, Render(ClickHouse, Predicate(ClickHouse, op, e, [h])))
      == Some(Condition(ShapeOf(ClickHouse, op), SlotsOf(ClickHouse, [h])))
  {
    PredicateText(ClickHouse, op, e, [h]);
    match op
    case Contains => ReadsFind(e, h);
    case BeginsWith => ReadsStart(e, h);
    case _ => ReadsEnd(e, h);
  }

  lemma ReadsAnyCall(e: string, shape: Shape, opening: string, closing: string, h: Placeholder, end: string)
    requires opening != "" && ' ' !in opening && Follows(end)
    requires forall s: string | s != "" && s[0] == opening[0] ::
      ReadCalls(e, s) == ReadCall(e, s, shape, opening, closing, end)
    ensures Read(ClickHouse, e, opening + e + closing + HoleText(ClickHouse, h) + end)
      == Some(Condition(shape, SlotsOf(ClickHouse, [h])))
  {
    var text := HoleText(ClickHouse, h);
    var tail := closing + (text + end);
    CallIsCall(e, opening, tail);
    CallReads(e, shape, opening, closing, h, end);
    Regroup(opening + e, closing, text, end);
    assert (opening + e + tail)[0] == opening[0];
  }

  lemma ReadsFind(e: string, h: Placeholder)
    ensures Read(ClickHouse, e, "positionCaseInsensitive(toString(" + e + "), " + HoleText(ClickHouse, h) + ") > 0")
      == Some(Condition(Finds, SlotsOf(ClickHouse, [h])))
  {
    ReadsAnyCall(e, Finds, "positionCaseInsensitive(toString(", "), ", h, ") > 0");
  }

  lemma ReadsStart(e: string, h: Placeholder)
    ensures Read(ClickHouse, e, "startsWith(lower(toString(" + e + ")), lower(" + HoleText(ClickHouse, h) + "))")
      == Some(Condition(Starts, SlotsOf(ClickHouse, [h])))
  {
    ReadsAnyCall(e, Starts, "startsWith(lower(toString(", ")), lower(", h, "))");
  }

  lemma ReadsEnd(e: string, h: Placeholder)
    ensures Read(ClickHouse, e, "endsWith(lower(toString(" + e + ")), lower(" + HoleText(ClickHouse, h) + "))")
      == Some(Condition(Ends, SlotsOf(ClickHouse, [h])))
  {
    ReadsAnyCall(e, Ends, "endsWith(lower(toString(", ")), lower(", h, "))");
  }

  /** The text of every clause reads back as its operator's condition over its placeholders, in order. */
  lemma PredicateReads(backend: Backend, op: Operator, e: string, holes: seq<Placeholder>)
    requires Fitting(op, holes)
    ensures Read(backend, e, Render(backend, Predicate(backend, op, e, holes)))
      == Some(Condition(ShapeOf(backend, op), SlotsOf(backend, holes)))
  {
    if IsComparison(op) {
      ReadsComparison(backend, op, e, holes);
    } else if op == InList || op == NotInList {
      ReadsList(backend, op, e, holes);
    } else if op == Between {
      assert holes == [holes[0], holes[1]];
      ReadsRange(backend, e, holes[0], holes[1]);
    } else if op == IsNull || op == IsNotNull {
      ReadsNull(backend, op, e);
      assert SlotsOf(backend, holes) == [];
    } else {
      assert holes == [holes[0]];
      if backend == Postgres {
        ReadsPattern(op, e, holes[0]);
      } else {
        ReadsCall(op, e, holes[0]);
      }
    }
  }
}
