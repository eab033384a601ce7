/**
What a filter asks of a row, and what a clause of a statement selects. The clause is read from its
text, as the database reads it: an operator, its placeholders and the values bound to them.
*/
module QueryMeaning {
  import opened Prelude
  import opened Text
  import opened TextMatching
  import opened QueryModel
  import opened QueryValidation
  import opened QueryCompiler
  import opened QueryRendering

  /** A value in the database; a column without one is NULL. */
  datatype Datum =
    | TextDatum(s: string) | UuidDatum(u: nat) | Instant(t: int) | IntegerDatum(i: int) | FloatDatum(r: real)
    | BooleanDatum(b: bool) | JsonDatum(json: Json)

  /** How a database reads and compares values; instants are compared as numbers. */
  datatype Database = Database(
    instant: Parser, uuid: string -> Option<nat>, text: Datum -> string, fold: char -> char,
    less: (Datum, Datum) -> bool)

  predicate Less(db: Database, a: Datum, b: Datum) {
    if a.Instant? && b.Instant? then a.t < b.t else db.less(a, b)
  }

  predicate NotAfter(db: Database, a: Datum, b: Datum) {
    a == b || Less(db, a, b)
  }

  function Folded(db: Database, v: Datum): string {
    Fold(db.fold, if v.TextDatum? then v.s else db.text(v))
  }

  function UuidOf(db: Database, s: string): Option<Datum> {
    match db.uuid(s)
    case None => None
    case Some(u) => Some(UuidDatum(u))
  }

  function InstantAt(db: Database, s: string): Option<Datum> {
    match db.instant(s)
    case None => None
    case Some(t) => Some(Instant(t))
  }

  /******* Filters *******/

  /** The value a filter names, for a field of this kind. */
  function Target(db: Database, kind: FieldKind, cell: Cell): Option<Datum> {
    match (kind, cell)
    case (TextKind, TextCell(s)) => Some(TextDatum(s))
    case (UuidKind, TextCell(s)) => UuidOf(db, s)
    case (TimestampKind, TextCell(s)) => InstantAt(db, s)
    case (IntegerKind, NumberCell(Whole(i))) => Some(IntegerDatum(i))
    case (FloatKind, NumberCell(Whole(i))) => Some(FloatDatum(i as real))
    case (FloatKind, NumberCell(Fraction(r))) => Some(FloatDatum(r))
    case (BooleanKind, BoolCell(b)) => Some(BooleanDatum(b))
    case (JsonKind, JsonCell(json)) => Some(JsonDatum(json))
    case _ => None
  }

  function ItemTarget(db: Database, kind: FieldKind, item: Json): Option<Datum> {
    match (kind, item)
    case (JsonKind, _) => Some(JsonDatum(item))
    case (TextKind, JsonText(s)) => Some(TextDatum(s))
    case (UuidKind, JsonText(s)) => UuidOf(db, s)
    case (TimestampKind, JsonText(s)) => InstantAt(db, s)
    case (IntegerKind, JsonNumber(Whole(i))) => Some(IntegerDatum(i))
    case (FloatKind, JsonNumber(Whole(i))) => Some(FloatDatum(i as real))
    case (FloatKind, JsonNumber(Fraction(r))) => Some(FloatDatum(r))
    case (BooleanKind, JsonBool(b)) => Some(BooleanDatum(b))
    case _ => None
  }

  /** The list holds a value for each of its items, and `v` is that of one of them or of none. */
  ghost predicate Lists(db: Database, kind: FieldKind, items: seq<Json>, v: Datum, among: bool) {
    && (forall i | 0 <= i < |items| :: ItemTarget(db, kind, items[i]).Some?)
    && (among <==> exists i :: 0 <= i < |items| && ItemTarget(db, kind, items[i]) == Some(v))
  }

  ghost predicate Meets(db: Database, kind: FieldKind, op: Operator, cell: Cell, v: Datum) {
    var target := Target(db, kind, cell);
    match op
    case Eq => target == Some(v)
    case NotEq => target.Some? && target.value != v
    case Lt => target.Some? && Less(db, v, target.value)
    case Lte => target.Some? && NotAfter(db, v, target.value)
    case Gt => target.Some? && Less(db, target.value, v)
    case Gte => target.Some? && NotAfter(db, target.value, v)
    case Contains => cell.TextCell? && Occurs(Folded(db, v), Fold(db.fold, cell.s))
    case BeginsWith => cell.TextCell? && StartsWith(Folded(db, v), Fold(db.fold, cell.s))
    case EndsWith => cell.TextCell? && TextMatching.EndsWith(Folded(db, v), Fold(db.fold, cell.s))
    case InList => cell.JsonCell? && cell.json.JsonArray? && Lists(db, kind, cell.json.items, v, true)
    case NotInList => cell.JsonCell? && cell.json.JsonArray? && Lists(db, kind, cell.json.items, v, false)
    case Between =>
      && cell.JsonCell? && cell.json.JsonArray? && |cell.json.items| == 2
      && var low, high := ItemTarget(db, kind, cell.json.items[0]), ItemTarget(db, kind, cell.json.items[1]);
         low.Some? && high.Some? && NotAfter(db, low.value, v) && NotAfter(db, v, high.value)
    case _ => false
  }

  /** A row whose field has the value `v` is one the filter asks for. */
  ghost predicate FilterHolds(db: Database, kind: FieldKind, op: Operator, value: Option<Cell>, v: Option<Datum>) {
    match op
    case IsNull => v.None?
    case IsNotNull => v.Some?
    case _ => v.Some? && value.Some? && Meets(db, kind, op, value.value, v.value)
  }

  /******* Clauses *******/

  datatype Conversion = AsIs | ToUuid | ToInstant | ToInteger | ToFloat | ToBoolean | ToJson

  /** A placeholder as read: the number it carries, if any, and the conversion around it. */
  datatype Slot = Slot(number: Option<nat>, conversion: Conversion)

  datatype Symbol = Equals | Differs | Below | NotAbove | Above | NotBelow

  datatype Shape =
    | Compares(symbol: Symbol)
    | Matches(leading: bool, trailing: bool) // ILIKE, with `%` in front of the value and behind it
    | Finds | Starts | Ends
    | OneOf | NoneOf
    | IsAbsent | IsPresent
    | Within

  datatype Condition = Condition(shape: Shape, slots: seq<Slot>)

  function Given(b: Bind): Datum {
    match b
    case TextBind(s) => TextDatum(s)
    case IntegerBind(i) => IntegerDatum(i)
    case FloatBind(r) => FloatDatum(r)
    case BoolBind(v) => BooleanDatum(v)
    case JsonBind(json) => JsonDatum(json)
  }

  function Convert(db: Database, c: Conversion, b: Bind): Option<Datum> {
    match (c, b)
    case (AsIs, _) => Some(Given(b))
    case (ToUuid, TextBind(s)) => UuidOf(db, s)
    case (ToInstant, TextBind(s)) => InstantAt(db, s)
    case (ToInteger, IntegerBind(_)) => Some(Given(b))
    case (ToFloat, FloatBind(_)) => Some(Given(b))
    case (ToBoolean, BoolBind(_)) => Some(Given(b))
    case (ToJson, JsonBind(_)) => Some(Given(b))
    case _ => None
  }

  /** The value of the `k`-th placeholder of a clause, when `before` placeholders come before the clause. */
  function SlotValue(db: Database, slot: Slot, k: nat, binds: seq<Bind>, before: nat): Option<Datum> {
    var n := if slot.number.Some? then slot.number.value else before + k + 1;
    if 1 <= n <= |binds| then Convert(db, slot.conversion, binds[n - 1]) else None
  }

  function SlotValues(db: Database, slots: seq<Slot>, binds: seq<Bind>, before: nat): (r: seq<Option<Datum>>)
    ensures |r| == |slots| && forall k | 0 <= k < |r| :: r[k] == SlotValue(db, slots[k], k, binds, before)
  {
    seq(|slots|, k requires 0 <= k < |slots| => SlotValue(db, slots[k], k, binds, before))
  }

  predicate Related(db: Database, symbol: Symbol, a: Datum, b: Datum) {
    match symbol
    case Equals => a == b
    case Differs => a != b
    case Below => Less(db, a, b)
    case NotAbove => NotAfter(db, a, b)
    case Above => Less(db, b, a)
    case NotBelow => NotAfter(db, b, a)
  }

  function Pattern(leading: bool, s: string, trailing: bool): string {
    (if leading then "%" else "") + (s + if trailing then "%" else "")
  }

  /** The search for text `s` succeeds in the folded text `t`. */
  predicate Searches(db: Database, shape: Shape, s: string, t: string) {
    match shape
    case Matches(leading, trailing) => Like(Fold(db.fold, Pattern(leading, s, trailing)), t)
    case Finds => Occurs(t, Fold(db.fold, s))
    case Starts => StartsWith(t, Fold(db.fold, s))
    case Ends => TextMatching.EndsWith(t, Fold(db.fold, s))
    case _ => false
  }

  predicate IsTrue(db: Database, shape: Shape, values: seq<Datum>, v: Datum) {
    match shape
    case Compares(symbol) => |values| == 1 && Related(db, symbol, v, values[0])
    case OneOf => v in values
    case NoneOf => v !in values
    case Within => |values| == 2 && NotAfter(db, values[0], v) && NotAfter(db, v, values[1])
    case _ => |values| == 1 && values[0].TextDatum? && Searches(db, shape, values[0].s, Folded(db, v))
  }

  function Present(values: seq<Option<Datum>>): (r: seq<Datum>)
    requires forall k | 0 <= k < |values| :: values[k].Some?
    ensures |r| == |values| && forall k | 0 <= k < |r| :: values[k] == Some(r[k])
  {
    seq(|values|, k requires 0 <= k < |values| => values[k].value)
  }

  /** The condition is true of the value `v`; comparing with NULL, or with no value at all, never is. */
  ghost predicate Holds(db: Database, shape: Shape, values: seq<Option<Datum>>, v: Option<Datum>) {
    if shape.IsAbsent? then v.None?
    else if shape.IsPresent? then v.Some?
    else v.Some? && (forall k | 0 <= k < |values| :: values[k].Some?) && IsTrue(db, shape, Present(values), v.value)
  }

  /******* Reading *******/

  function Strip(s: string, prefix: string): Option<string> {
    if StartsWith(s, prefix) then Some(s[|prefix|..]) else None
  }

  /** The text up to the first blank, and what follows the blank. */
  function Word(s: string): (string, string) {
    match IndexOf(s, ' ')
    case None => (s, "")
    case Some(i) => (s[..i], s[i + 1..])
  }

  function ReadCast(s: string): (r: (Conversion, string))
    ensures |r.1| <= |s|
  {
    if StartsWith(s, "::UUID") then (ToUuid, s[6..])
    else if StartsWith(s, "::TIMESTAMPTZ") then (ToInstant, s[13..])
    else if StartsWith(s, "::BIGINT") then (ToInteger, s[8..])
    else if StartsWith(s, "::DOUBLE PRECISION") then (ToFloat, s[18..])
    else if StartsWith(s, "::BOOLEAN") then (ToBoolean, s[9..])
    else if StartsWith(s, "::JSONB") then (ToJson, s[7..])
    else (AsIs, s)
  }

  lemma LeadingIsShort(s: string)
    ensures |LeadingDigits(s)| <= |s|
  {
  }

  /** A placeholder at the start of the text, and the text behind it. */
  function ReadSlot(backend: Backend, s: string): (r: Option<(Slot, string)>)
    ensures r.Some? ==> |r.value.1| < |s|
  {
    match backend
    case Postgres =>
      if s == "" || s[0] != '$' then None
      else
        var digits := LeadingDigits(s[1..]);
        LeadingIsShort(s[1..]);
        LeadingAreDigits(s[1..]);
        var cast := ReadCast(s[1 + |digits|..]);
        Some((Slot(Some(Value(digits)), cast.0), cast.1))
    case ClickHouse =>
      if s != "" && s[0] == '?' then Some((Slot(None, AsIs), s[1..]))
      else if StartsWith(s, "toUUID(?)") then Some((Slot(None, ToUuid), s[9..]))
      else if StartsWith(s, "parseDateTime64BestEffort(?, 6, 'UTC')") then Some((Slot(None, ToInstant), s[38..]))
      else None
  }

  /** One placeholder and then exactly `end`. */
  function ReadOne(backend: Backend, shape: Shape, s: string, end: string): Option<Condition> {
    match ReadSlot(backend, s)
    case None => None
    case Some((slot, rest)) => if rest == end then Some(Condition(shape, [slot])) else None
  }

  /** Placeholders separated by commas, up to a closing parenthesis that ends the text. */
  function ReadSlots(backend: Backend, s: string): Option<seq<Slot>>
    decreases |s|
  {
    match ReadSlot(backend, s)
    case None => None
    case Some((slot, rest)) =>
      if rest == ")" then Some([slot])
      else if !StartsWith(rest, ", ") then None
      else
        match ReadSlots(backend, rest[2..])
        case None => None
        case Some(slots) => Some([slot] + slots)
  }

  function ReadList(backend: Backend, shape: Shape, s: string): Option<Condition> {
    if s == "" || s[0] != '(' then None
    else
      match ReadSlots(backend, s[1..])
      case None => None
      case Some(slots) => Some(Condition(shape, slots))
  }

  function ReadRange(backend: Backend, s: string): Option<Condition> {
    match ReadSlot(backend, s)
    case None => None
    case Some((low, rest)) =>
      if !StartsWith(rest, " AND ") then None
      else
        match ReadSlot(backend, rest[5..])
        case None => None
        case Some((high, end)) => if end == "" then Some(Condition(Within, [low, high])) else None
  }

  /** What stands behind the expression and a blank. */
  function ReadOperator(backend: Backend, s: string): Option<Condition> {
    var word, rest := Word(s).0, Word(s).1;
    if word == "=" then ReadOne(backend, Compares(Equals), rest, "")
    else if word == "<>" then ReadOne(backend, Compares(Differs), rest, "")
    else if word == "<" then ReadOne(backend, Compares(Below), rest, "")
    else if word == "<=" then ReadOne(backend, Compares(NotAbove), rest, "")
    else if word == ">" then ReadOne(backend, Compares(Above), rest, "")
    else if word == ">=" then ReadOne(backend, Compares(NotBelow), rest, "")
    else if word == "IN" then ReadList(backend, OneOf, rest)
    else if word == "NOT" && Word(rest).0 == "IN" then ReadList(backend, NoneOf, Word(rest).1)
    else if word == "IS" && rest == "NULL" then Some(Condition(IsAbsent, []))
    else if word == "IS" && rest == "NOT NULL" then Some(Condition(IsPresent, []))
    else if word == "BETWEEN" then ReadRange(backend, rest)
    else None
  }

  /** What stands behind `ILIKE`. */
  function ReadPattern(s: string): Option<Condition> {
    var leading := StartsWith(s, "'%' || ");
    var rest := if leading then s[7..] else s;
    match ReadOne(Postgres, Matches(leading, true), rest, " || '%'")
    case Some(c) => Some(c)
    case None => ReadOne(Postgres, Matches(leading, false), rest, "")
  }

  /** A call of a ClickHouse search function over the text of `e`. */
  function ReadCall(e: string, s: string, shape: Shape, opening: string, closing: string, end: string): Option<Condition> {
    match Strip(s, opening + e + closing)
    case None => None
    case Some(rest) => ReadOne(ClickHouse, shape, rest, end)
  }

  function ReadCalls(e: string, s: string): Option<Condition> {
    if s == "" then None
    else if s[0] == 'p' then ReadCall(e, s, Finds, "positionCaseInsensitive(toString(", "), ", ") > 0")
    else if s[0] == 's' then ReadCall(e, s, Starts, "startsWith(lower(toString(", ")), lower(", "))")
    else ReadCall(e, s, Ends, "endsWith(lower(toString(", ")), lower(", "))")
  }

  /** The clause as a condition on the expression `e`. */
  function Read(backend: Backend, e: string, s: string): Option<Condition> {
    match Strip(s, e)
    case Some(rest) =>
      if rest != "" && rest[0] == ' ' then ReadOperator(backend, rest[1..])
      else if backend == Postgres && StartsWith(rest, "::TEXT ILIKE ") then ReadPattern(rest[13..])
      else if backend == ClickHouse then ReadCalls(e, s)
      else None
    case None => if backend == ClickHouse then ReadCalls(e, s) else None
  }

  predicate Same(a: string, b: string) {
    a == b
  }

  /** The text reads as `c`; behind a quantifier, so that proofs about lists of clauses do not read them. */
  ghost predicate ReadsAs(backend: Backend, e: string, text: string, c: Condition) {
    forall s :: Same(s, text) ==> Read(backend, e, s) == Some(c)
  }

  lemma ReadsAsMeans(backend: Backend, e: string, text: string, c: Condition)
    ensures ReadsAs(backend, e, text, c) <==> Read(backend, e, text) == Some(c)
  {
    assert Same(text, text);
  }

  /** The clause, read from its text, is true of a row whose expression `e` has the value `v`. */
  ghost predicate ClauseHolds(
      db: Database, backend: Backend, e: string, text: string, binds: seq<Bind>, before: nat, v: Option<Datum>)
  {
    exists c :: ReadsAs(backend, e, text, c) && Holds(db, c.shape, SlotValues(db, c.slots, binds, before), v)
  }

  lemma ClauseHoldsMeans(
      db: Database, backend: Backend, e: string, text: string, binds: seq<Bind>, before: nat, v: Option<Datum>, c: Condition)
    requires Read(backend, e, text) == Some(c)
    ensures ClauseHolds(db, backend, e, text, binds, before, v) <==>
      Holds(db, c.shape, SlotValues(db, c.slots, binds, before), v)
  {
    ReadsAsMeans(backend, e, text, c);
    forall other | ReadsAs(backend, e, text, other) ensures other == c {
      ReadsAsMeans(backend, e, text, other);
    }
  }
}
