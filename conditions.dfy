/** The conditions a simple search builds (`SimpleSearch.parseCondition`
    and `SearchProvider.cast` of svySearch/svySearch.js): one search term
    against one search provider gives a query-builder condition on the
    provider's column, or none when the value cannot be cast. */
module Conditions {
  import opened JsValues
  import opened Strings
  import opened Schema
  import opened Terms
  import opened Providers

  /** A value after `cast`: the text itself (or undefined, for an empty
      term), a number, or a date as milliseconds since the epoch. */
  datatype Value = Undefined | Str(s: string) | Num(n: real) | Date(time: int)

  /** A query-builder condition. `upper` marks a comparison on the
      upper-cased column (`column.upper`). */
  datatype Condition =
    | Like(column: ColumnRef, upper: bool, pattern: string)
    | NotLike(column: ColumnRef, upper: bool, pattern: string)
    | Eq(column: ColumnRef, upper: bool, v: Value)
    | NotEq(column: ColumnRef, v: Value)
    | Gt(column: ColumnRef, v: Value)
    | Ge(column: ColumnRef, v: Value)
    | Lt(column: ColumnRef, v: Value)
    | Le(column: ColumnRef, v: Value)
    | Between(column: ColumnRef, lo: Value, hi: Value)
    | NotBetween(column: ColumnRef, lo: Value, hi: Value)
    | And(items: seq<Condition>)
    | Or(items: seq<Condition>)

  /** A condition on one column (not a conjunction or disjunction). */
  predicate OnColumn(c: Condition) {
    !c.And? && !c.Or?
  }

  /** The services of the host platform the conditions depend on:
      `new Number(s)` (`None` for NaN), `utils.parseDate(s, format)` (`None`
      when it fails or throws) and the offset of the local time zone in
      milliseconds. */
  datatype Host = Host(parseNumber: string -> Option<real>, parseDate: (string, string) -> Option<int>, tzOffset: int)

  const DayMillis: int := 86400000

  /** `max.setHours(23, 59, 59, 999)` on a copy of a date: the last
      millisecond of the same local day. */
  function EndOfDay(t: int, tzOffset: int): (e: int)
    ensures t <= e < t + DayMillis
    ensures (e + tzOffset) % DayMillis == DayMillis - 1
    ensures (e + tzOffset) / DayMillis == (t + tzOffset) / DayMillis
  {
    var local := t + tzOffset;
    var day := local / DayMillis;
    assert local == day * DayMillis + local % DayMillis;
    assert (day * DayMillis + DayMillis - 1) % DayMillis == DayMillis - 1
        && (day * DayMillis + DayMillis - 1) / DayMillis == day by {
      DivModUnique(day * DayMillis + DayMillis - 1, day, DayMillis - 1);
    }
    day * DayMillis + DayMillis - 1 - tzOffset
  }

  lemma DivModUnique(x: int, q: int, r: int)
    requires 0 <= r < DayMillis && x == q * DayMillis + r
    ensures x / DayMillis == q && x % DayMillis == r
  {
  }

  /** The end of a day is its own end of day. */
  lemma EndOfDayIdempotent(t: int, tzOffset: int)
    ensures EndOfDay(EndOfDay(t, tzOffset), tzOffset) == EndOfDay(t, tzOffset)
  {
    var e := EndOfDay(t, tzOffset);
    var e2 := EndOfDay(e, tzOffset);
    assert (e2 + tzOffset) / DayMillis == (e + tzOffset) / DayMillis;
    assert (e2 + tzOffset) % DayMillis == (e + tzOffset) % DayMillis;
    assert e2 + tzOffset == (e2 + tzOffset) / DayMillis * DayMillis + (e2 + tzOffset) % DayMillis;
    assert e + tzOffset == (e + tzOffset) / DayMillis * DayMillis + (e + tzOffset) % DayMillis;
  }

  /** `new Date(v.getTime())` followed by `setHours(23, 59, 59, 999)`: only
      a date has `getTime`; anything else (undefined, in particular) throws. */
  function DayEnd(v: Value, tzOffset: int): (r: Js<Value>)
    ensures r.Ok? <==> v.Date?
    ensures r.Ok? ==> r.value == Date(EndOfDay(v.time, tzOffset))
    ensures r.Ok? ==> v.time <= r.value.time < v.time + DayMillis
  {
    if v.Date? then Ok(Date(EndOfDay(v.time, tzOffset))) else Throws(TypeError)
  }

  /** `cast(value)` for a column of type `colType`; `None` for the value
      stands for undefined (an empty term). A failed cast is `None`. */
  function Cast(host: Host, colType: ColumnType, value: Option<string>, dateFormat: string): (r: Option<Value>)
    ensures colType.Text? || colType.Other? ==> r.Some? && (r.value.Str? || r.value.Undefined?)
    ensures colType.Text? || colType.Other? ==> (r.value.Undefined? <==> value.None?)
    ensures r.Some? && r.value.Str? ==> value == Some(r.value.s)
    ensures colType.DateTime? && r.Some? ==> r.value.Date?
    ensures (colType.Integer? || colType.Number?) && r.Some? ==> r.value.Num?
    ensures value.None? && !(colType.Text? || colType.Other?) ==> r.None?
    ensures colType.DateTime? && value.Some? ==>
      && (r.None? <==> host.parseDate(value.value, dateFormat).None?)
      && (r.Some? ==> r.value == Date(host.parseDate(value.value, dateFormat).value))
    ensures (colType.Integer? || colType.Number?) && value.Some? ==>
      && (r.None? <==> host.parseNumber(value.value).None?)
      && (r.Some? ==> r.value == Num(host.parseNumber(value.value).value))
  {
    match colType
    case DateTime =>
      if value.None? then None
      else (match host.parseDate(value.value, dateFormat)
            case None => None
            case Some(t) => Some(Date(t)))
    case Integer =>
      if value.None? then None
      else (match host.parseNumber(value.value)
            case None => None
            case Some(n) => Some(Num(n)))
    case Number =>
      if value.None? then None
      else (match host.parseNumber(value.value)
            case None => None
            case Some(n) => Some(Num(n)))
    case Text => if value.None? then Some(Undefined) else Some(Str(value.value))
    case Other(_) => if value.None? then Some(Undefined) else Some(Str(value.value))
  }

  /** The text a value of a TEXT column shows when concatenated. */
  function TextOf(v: Value): string
    requires v.Str? || v.Undefined?
  {
    if v.Str? then v.s else "undefined"
  }

  /** The LIKE pattern of a string matching mode. */
  function Shape(mode: MatchMode, text: string): string {
    match mode
    case Contains => "%" + text + "%"
    case StartsWith => text + "%"
    case EndsWith => "%" + text
  }

  /** The pattern `p` searches for `text` as the mode says: a wildcard in
      front unless it starts with the text, a wildcard behind unless it ends
      with it. */
  predicate PatternFor(p: string, mode: MatchMode, text: string) {
    var front := if mode.StartsWith? then 0 else 1;
    var back := if mode.EndsWith? then 0 else 1;
    && |p| == front + |text| + back
    && p[front..front + |text|] == text
    && (front == 1 ==> p[0] == '%')
    && (back == 1 ==> p[|p| - 1] == '%')
  }

  lemma ShapePattern(mode: MatchMode, text: string)
    ensures PatternFor(Shape(mode, text), mode, text)
    ensures PatternFor(Upper(Shape(mode, text)), mode, Upper(text))
  {
    var p := Shape(mode, text);
    var u := Upper(p);
    var front := if mode.StartsWith? then 0 else 1;
    assert p[front..front + |text|] == text;
    assert u[front..front + |text|] == Upper(text) by {
      forall k | 0 <= k < |text| ensures u[front + k] == Upper(text)[k] {
        assert p[front + k] == text[k];
      }
    }
  }

  /** The LIKE / NOT LIKE condition of a TEXT column: on the column as is
      when the provider is case-sensitive, otherwise on the upper-cased
      column with the upper-cased pattern. */
  function TextMatch(column: ColumnRef, caseSensitive: bool, mode: MatchMode, v: Value, negate: bool): (c: Condition)
    requires v.Str? || v.Undefined?
    ensures c.Like? || c.NotLike?
    ensures c.NotLike? <==> negate
    ensures c.column == column && c.upper == !caseSensitive
    ensures PatternFor(c.pattern, mode, if caseSensitive then TextOf(v) else Upper(TextOf(v)))
  {
    ShapePattern(mode, TextOf(v));
    var pattern := Shape(mode, TextOf(v));
    if caseSensitive then
      (if negate then NotLike(column, false, pattern) else Like(column, false, pattern))
    else
      (if negate then NotLike(column, true, Upper(pattern)) else Like(column, true, Upper(pattern)))
  }

  /** `value.toUpperCase()`: only a string has it. */
  function UpperValue(v: Value): (r: Js<Value>)
    ensures r.Ok? <==> v.Str?
    ensures r.Ok? ==> r.value.Str? && |r.value.s| == |v.s|
  {
    if v.Str? then Ok(Str(Upper(v.s))) else Throws(TypeError)
  }

  /** The modifiers part of `parseCondition`: the first modifier set, in the
      order exclude, exact, gt, ge, lt, le, between, decides the condition;
      without one, TEXT columns match by pattern, DATETIME columns by the
      whole day, and other columns by equality. */
  function Build(column: ColumnRef, colType: ColumnType, caseSensitive: bool, mode: MatchMode,
                 m: Modifiers, v: Value, vmax: Value, tzOffset: int): (r: Js<Condition>)
    requires colType.Text? ==> v.Str? || v.Undefined?
    ensures r.Ok? ==> OnColumn(r.value) && r.value.column == column
  {
    if m.exclude then
      if colType.Text? then Ok(TextMatch(column, caseSensitive, mode, v, true))
      else if colType.DateTime? then
        (match DayEnd(v, tzOffset)
         case Throws(e) => Throws(e)
         case Ok(max) => Ok(NotBetween(column, v, max)))
      else Ok(NotEq(column, v))
    else if m.exact then
      if colType.Text? && !caseSensitive then
        (match UpperValue(v)
         case Throws(e) => Throws(e)
         case Ok(u) => Ok(Eq(column, true, u)))
      else Ok(Eq(column, false, v))
    else if m.gt then
      if colType.DateTime? then
        (match DayEnd(v, tzOffset)
         case Throws(e) => Throws(e)
         case Ok(max) => Ok(Gt(column, max)))
      else Ok(Gt(column, v))
    else if m.ge then Ok(Ge(column, v))
    else if m.lt then Ok(Lt(column, v))
    else if m.le then
      if colType.DateTime? then
        (match DayEnd(v, tzOffset)
         case Throws(e) => Throws(e)
         case Ok(max) => Ok(Le(column, max)))
      else Ok(Le(column, v))
    else if m.between then
      if colType.DateTime? then
        (match DayEnd(vmax, tzOffset)
         case Throws(e) => Throws(e)
         case Ok(max) => Ok(Between(column, v, max)))
      else Ok(Between(column, v, vmax))
    else if colType.Text? then Ok(TextMatch(column, caseSensitive, mode, v, false))
    else if colType.DateTime? then
      (match DayEnd(v, tzOffset)
       case Throws(e) => Throws(e)
       case Ok(max) => Ok(Between(column, v, max)))
    else Ok(Eq(column, false, v))
  }

  /** Exact (`+`) wins over everything but exclude: equality, on the
      upper-cased column and value for a case-insensitive TEXT column (which
      throws when the value is undefined), on the value as is otherwise. */
  lemma BuildExact(column: ColumnRef, colType: ColumnType, caseSensitive: bool, mode: MatchMode,
                   m: Modifiers, v: Value, vmax: Value, tzOffset: int)
    requires colType.Text? ==> v.Str? || v.Undefined?
    requires !m.exclude && m.exact
    ensures colType.Text? && !caseSensitive ==>
      Build(column, colType, caseSensitive, mode, m, v, vmax, tzOffset)
        == if v.Str? then Ok(Eq(column, true, Str(Upper(v.s)))) else Throws(TypeError)
    ensures !(colType.Text? && !caseSensitive) ==>
      Build(column, colType, caseSensitive, mode, m, v, vmax, tzOffset) == Ok(Eq(column, false, v))
  {
  }

  /** The range modifiers, in their order of priority. `>` and `<=` on a
      DATETIME column compare with the end of the value's day, and between
      runs up to the end of the upper bound's day; `>=` and `<` compare with
      the value itself on every column type. */
  lemma BuildRange(column: ColumnRef, colType: ColumnType, caseSensitive: bool, mode: MatchMode,
                   m: Modifiers, v: Value, vmax: Value, tzOffset: int)
    requires colType.Text? ==> v.Str? || v.Undefined?
    requires !m.exclude && !m.exact
    ensures m.gt ==>
      Build(column, colType, caseSensitive, mode, m, v, vmax, tzOffset)
        == if !colType.DateTime? then Ok(Gt(column, v))
           else if v.Date? then Ok(Gt(column, Date(EndOfDay(v.time, tzOffset))))
           else Throws(TypeError)
    ensures !m.gt && m.ge ==>
      Build(column, colType, caseSensitive, mode, m, v, vmax, tzOffset) == Ok(Ge(column, v))
    ensures !m.gt && !m.ge && m.lt ==>
      Build(column, colType, caseSensitive, mode, m, v, vmax, tzOffset) == Ok(Lt(column, v))
    ensures !m.gt && !m.ge && !m.lt && m.le ==>
      Build(column, colType, caseSensitive, mode, m, v, vmax, tzOffset)
        == if !colType.DateTime? then Ok(Le(column, v))
           else if v.Date? then Ok(Le(column, Date(EndOfDay(v.time, tzOffset))))
           else Throws(TypeError)
    ensures !m.gt && !m.ge && !m.lt && !m.le && m.between ==>
      Build(column, colType, caseSensitive, mode, m, v, vmax, tzOffset)
        == if !colType.DateTime? then Ok(Between(column, v, vmax))
           else if vmax.Date? then Ok(Between(column, v, Date(EndOfDay(vmax.time, tzOffset))))
           else Throws(TypeError)
  {
  }

  /** The value of a term after the provider's substitutions, or undefined
      when the term's value is empty. */
  function SubstitutedValue(sp: ProviderState, value: string): Option<string> {
    if NonEmpty(value) then Some(SubstituteAsWritten(sp.substitutions, sp.caseSensitive, value)) else None
  }

  /** `parseCondition(term, sp, q)`: resolve the column (which throws for an
      unknown relation or a missing column), substitute and cast the value
      and, if there is one, the maximum (a failed cast gives no condition),
      then apply the modifiers. */
  function ParseCondition(schema: Schema, host: Host, dataSource: DataSource, dateFormat: string,
                          term: Term, sp: ProviderState): (r: Js<Option<Condition>>)
    ensures r.Ok? ==> QBColumnOf(schema, sp.dataProviderID).Ok? && ColumnTypeOf(schema, dataSource, sp.dataProviderID).Ok?
    ensures r.Ok? && r.value.Some? ==>
      OnColumn(r.value.value) && r.value.value.column == QBColumnOf(schema, sp.dataProviderID).value
    ensures r == Ok(None) ==> ColumnTypeOf(schema, dataSource, sp.dataProviderID).value in {Integer, Number, DateTime}
    ensures QBColumnOf(schema, sp.dataProviderID).Ok? && ColumnTypeOf(schema, dataSource, sp.dataProviderID).Ok? ==>
      var colType := ColumnTypeOf(schema, dataSource, sp.dataProviderID).value;
      (r == Ok(None) <==>
        || Cast(host, colType, SubstitutedValue(sp, term.value), dateFormat).None?
        || (Present(term.valueMax) &&
            Cast(host, colType, Some(SubstituteAsWritten(sp.substitutions, sp.caseSensitive, term.valueMax.value)), dateFormat).None?))
  {
    match QBColumnOf(schema, sp.dataProviderID)
    case Throws(e) => Throws(e)
    case Ok(column) =>
      match ColumnTypeOf(schema, dataSource, sp.dataProviderID)
      case Throws(e) => Throws(e)
      case Ok(colType) =>
        var value := Cast(host, colType, SubstitutedValue(sp, term.value), dateFormat);
        if value.None? then Ok(None)
        else
          var valueMax :=
            if Present(term.valueMax) then Cast(host, colType, Some(SubstituteAsWritten(sp.substitutions, sp.caseSensitive, term.valueMax.value)), dateFormat)
            else Some(Undefined);
          if valueMax.None? then Ok(None)
          else
            match Build(column, colType, sp.caseSensitive.Truthy(), sp.matching, term.modifiers, value.value, valueMax.value, host.tzOffset)
            case Throws(e) => Throws(e)
            case Ok(c) => Ok(Some(c))
  }

  // ---------------------------------------------------------------------
  // Properties of parseCondition

  /** The negation of a condition without modifiers, as the exclude
      modifier writes it. */
  function Negate(c: Condition): Condition {
    match c
    case Like(col, u, p) => NotLike(col, u, p)
    case Between(col, lo, hi) => NotBetween(col, lo, hi)
    case Eq(col, _, v) => NotEq(col, v)
    case _ => c
  }

  function NegateResult(r: Js<Option<Condition>>): Js<Option<Condition>> {
    if r.Ok? && r.value.Some? then Ok(Some(Negate(r.value.value))) else r
  }

  /** Excluding a term gives exactly the negation of what the term gives
      without modifiers, for every column type, and fails or throws exactly
      when that does. */
  lemma ExcludeIsNegation(schema: Schema, host: Host, dataSource: DataSource, dateFormat: string, term: Term, sp: ProviderState)
    requires term.modifiers.exclude
    ensures ParseCondition(schema, host, dataSource, dateFormat, term, sp) ==
      NegateResult(ParseCondition(schema, host, dataSource, dateFormat, term.(modifiers := NoModifiers), sp))
  {
    var column := QBColumnOf(schema, sp.dataProviderID);
    var colType := ColumnTypeOf(schema, dataSource, sp.dataProviderID);
    if column.Ok? && colType.Ok? {
      var value := Cast(host, colType.value, SubstitutedValue(sp, term.value), dateFormat);
      var valueMax :=
        if Present(term.valueMax) then Cast(host, colType.value, Some(SubstituteAsWritten(sp.substitutions, sp.caseSensitive, term.valueMax.value)), dateFormat)
        else Some(Undefined);
      if value.Some? && valueMax.Some? {
        BuildExclude(column.value, colType.value, sp.caseSensitive.Truthy(), sp.matching, term.modifiers,
                     value.value, valueMax.value, host.tzOffset);
      }
    }
  }

  /** The exclude modifier negates what the same value gives without
      modifiers. */
  lemma BuildExclude(column: ColumnRef, colType: ColumnType, caseSensitive: bool, mode: MatchMode,
                     m: Modifiers, v: Value, vmax: Value, tzOffset: int)
    requires m.exclude
    requires colType.Text? ==> v.Str? || v.Undefined?
    ensures var plain := Build(column, colType, caseSensitive, mode, NoModifiers, v, vmax, tzOffset);
      Build(column, colType, caseSensitive, mode, m, v, vmax, tzOffset) ==
        if plain.Ok? then Ok(Negate(plain.value)) else plain
  {
  }

  /** The modifiers with only the first set flag kept, in the order the
      flags are tested. */
  function Dominant(m: Modifiers): Modifiers {
    if m.exclude then NoModifiers.(exclude := true)
    else if m.exact then NoModifiers.(exact := true)
    else if m.gt then NoModifiers.(gt := true)
    else if m.ge then NoModifiers.(ge := true)
    else if m.lt then NoModifiers.(lt := true)
    else if m.le then NoModifiers.(le := true)
    else if m.between then NoModifiers.(between := true)
    else NoModifiers
  }

  /** Only the first flag set counts: the others are ignored. */
  lemma ModifierPriority(schema: Schema, host: Host, dataSource: DataSource, dateFormat: string, term: Term, sp: ProviderState)
    ensures ParseCondition(schema, host, dataSource, dateFormat, term, sp) ==
      ParseCondition(schema, host, dataSource, dateFormat, term.(modifiers := Dominant(term.modifiers)), sp)
  {
    var column := QBColumnOf(schema, sp.dataProviderID);
    var colType := ColumnTypeOf(schema, dataSource, sp.dataProviderID);
    if column.Ok? && colType.Ok? {
      var value := Cast(host, colType.value, SubstitutedValue(sp, term.value), dateFormat);
      var valueMax :=
        if Present(term.valueMax) then Cast(host, colType.value, Some(SubstituteAsWritten(sp.substitutions, sp.caseSensitive, term.valueMax.value)), dateFormat)
        else Some(Undefined);
      if value.Some? && valueMax.Some? {
        BuildDominant(column.value, colType.value, sp.caseSensitive.Truthy(), sp.matching, term.modifiers,
                      value.value, valueMax.value, host.tzOffset);
      }
    }
  }

  lemma BuildDominant(column: ColumnRef, colType: ColumnType, caseSensitive: bool, mode: MatchMode,
                      m: Modifiers, v: Value, vmax: Value, tzOffset: int)
    requires colType.Text? ==> v.Str? || v.Undefined?
    ensures Build(column, colType, caseSensitive, mode, m, v, vmax, tzOffset) ==
      Build(column, colType, caseSensitive, mode, Dominant(m), v, vmax, tzOffset)
  {
  }

  /** A term from the tokenizer carries at most one flag, so the priority
      among flags never shows for parsed terms. */
  lemma ParsedTermsOneFlag(m: Modifiers)
    requires FlagCount(m) <= 1
    ensures Dominant(m) == m
  {
  }

  /** An empty value is cast from undefined, which numbers and dates cannot
      take: a number or date column gives no condition. */
  lemma EmptyValueNoCondition(schema: Schema, host: Host, dataSource: DataSource, dateFormat: string, term: Term, sp: ProviderState)
    requires term.value == ""
    requires QBColumnOf(schema, sp.dataProviderID).Ok?
    requires ColumnTypeOf(schema, dataSource, sp.dataProviderID).Ok?
    requires ColumnTypeOf(schema, dataSource, sp.dataProviderID).value in {Integer, Number, DateTime}
    ensures ParseCondition(schema, host, dataSource, dateFormat, term, sp) == Ok(None)
  {
  }

  /** On a TEXT column a term without modifiers always gives a LIKE
      condition: on the upper-cased column unless the provider is
      case-sensitive, with the substituted value (upper-cased likewise, and
      the text "undefined" for an empty value) placed as the string
      matching mode says. */
  lemma TextLike(schema: Schema, host: Host, dataSource: DataSource, dateFormat: string, term: Term, sp: ProviderState)
    requires term.modifiers == NoModifiers
    requires QBColumnOf(schema, sp.dataProviderID).Ok?
    requires ColumnTypeOf(schema, dataSource, sp.dataProviderID) == Ok(Text)
    ensures var r := ParseCondition(schema, host, dataSource, dateFormat, term, sp);
      var text := if NonEmpty(term.value) then SubstituteAsWritten(sp.substitutions, sp.caseSensitive, term.value) else "undefined";
      && r.Ok? && r.value.Some? && r.value.value.Like?
      && r.value.value.upper == !sp.caseSensitive.Truthy()
      && PatternFor(r.value.value.pattern, sp.matching, if sp.caseSensitive.Truthy() then text else Upper(text))
  {
  }

  /** On a DATETIME column a term without modifiers that casts to a date
      gives the range from that instant to the end of its local day. */
  lemma DateWholeDay(schema: Schema, host: Host, dataSource: DataSource, dateFormat: string, term: Term, sp: ProviderState)
    requires term.modifiers == NoModifiers
    requires QBColumnOf(schema, sp.dataProviderID).Ok?
    requires ColumnTypeOf(schema, dataSource, sp.dataProviderID) == Ok(DateTime)
    requires ParseCondition(schema, host, dataSource, dateFormat, term, sp).Ok?
    requires ParseCondition(schema, host, dataSource, dateFormat, term, sp).value.Some?
    ensures var c := ParseCondition(schema, host, dataSource, dateFormat, term, sp).value.value;
      && c.Between? && c.lo.Date? && c.hi.Date?
      && c.lo.time <= c.hi.time < c.lo.time + DayMillis
      && c.hi.time == EndOfDay(c.lo.time, host.tzOffset)
  {
  }

  /** An exact, case-insensitive search on a TEXT column with an empty value
      calls `toUpperCase` on undefined and throws. */
  lemma ExactEmptyTextThrows(schema: Schema, host: Host, dataSource: DataSource, dateFormat: string, term: Term, sp: ProviderState)
    requires term.value == "" && term.modifiers == NoModifiers.(exact := true)
    requires !sp.caseSensitive.Truthy()
    requires QBColumnOf(schema, sp.dataProviderID).Ok?
    requires ColumnTypeOf(schema, dataSource, sp.dataProviderID) == Ok(Text)
    ensures ParseCondition(schema, host, dataSource, dateFormat, term, sp) == Throws(TypeError)
  {
  }

  /** A between search on a DATETIME column without a maximum reads
      `getTime` of undefined and throws. */
  lemma DateBetweenWithoutMaxThrows(schema: Schema, host: Host, dataSource: DataSource, dateFormat: string, term: Term, sp: ProviderState)
    requires term.modifiers == NoModifiers.(between := true) && !Present(term.valueMax)
    requires QBColumnOf(schema, sp.dataProviderID).Ok?
    requires ColumnTypeOf(schema, dataSource, sp.dataProviderID) == Ok(DateTime)
    requires ParseCondition(schema, host, dataSource, dateFormat, term, sp) != Ok(None)
    ensures ParseCondition(schema, host, dataSource, dateFormat, term, sp) == Throws(TypeError)
  {
  }
}
