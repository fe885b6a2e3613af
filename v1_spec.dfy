/** The first-generation builder (`querybuilder.go`) as functions: its
    column/value registry, the literal rendering of a value, the validation
    both builders start with, and the two statements it writes: the
    literal statement of `BuildString` and the prepared statement of
    `BuildDataHelper`, whose placeholders are written as pieces carrying
    the value meant for them.

    Names are compared after ASCII lower-casing, as the source does with
    `strings.ToLower`. Go's `nil` interface is `Nil`; a typed nil pointer is
    not `nil` to this engine, which never dereferences anything. */
module V1Spec {
  import opened Values
  import opened Text
  import opened Dialect
  import opened Emission

  datatype QueryColumn = QueryColumn(ColumnName: string, Length: int)

  datatype QueryValue = QueryValue(
    ColumnName: string,
    Value: Input,
    DefaultValue: Input,
    NullDetectValue: Input,
    IsDBString: bool)

  datatype QueryFilter = QueryFilter(ColumnNameOrExpression: string, Value: Input, IsDBString: bool)

  /** The builder's state. */
  datatype Builder = Builder(
    TableName: string,
    CommandType: CommandType,
    Columns: seq<QueryColumn>,
    Values: seq<QueryValue>,
    Order: seq<QuerySort>,
    Group: seq<string>,
    Filter: seq<QueryFilter>,
    StringEnclosingChar: string,
    StringEscapeChar: string,
    ResultLimitPosition: Limit,
    ResultLimit: string)

  // ---------------------------------------------------------------------------
  // The registry

  function ColumnNames(columns: seq<QueryColumn>): (r: seq<string>)
    ensures |r| == |columns| && forall i :: 0 <= i < |columns| ==> r[i] == columns[i].ColumnName
  {
    seq(|columns|, i requires 0 <= i < |columns| => columns[i].ColumnName)
  }

  function ValueNames(values: seq<QueryValue>): (r: seq<string>)
    ensures |r| == |values| && forall i :: 0 <= i < |values| ==> r[i] == values[i].ColumnName
  {
    seq(|values|, i requires 0 <= i < |values| => values[i].ColumnName)
  }

  /** The registry invariant: no two columns and no two value entries share
      a name up to case, and every value entry is named after a column. */
  ghost predicate Registered(columns: seq<QueryColumn>, values: seq<QueryValue>)
  {
    (forall i, j :: 0 <= i < j < |columns| ==> !EqualFold(columns[i].ColumnName, columns[j].ColumnName)) &&
    (forall i, j :: 0 <= i < j < |values| ==> !EqualFold(values[i].ColumnName, values[j].ColumnName)) &&
    (forall i :: 0 <= i < |values| ==> values[i].ColumnName in ColumnNames(columns))
  }

  /** `addColumn`: the index of the column with this name up to case,
      appending a new column when there is none. */
  function AddColumn(columns: seq<QueryColumn>, name: string, length: int): (r: (seq<QueryColumn>, nat))
    ensures r.1 < |r.0| && EqualFold(name, r.0[r.1].ColumnName)
    ensures r.1 < |columns| ==> r.0 == columns
    ensures r.1 == |columns| ==> r.0 == columns + [QueryColumn(name, length)]
    ensures r.1 == |columns| <==> forall j :: 0 <= j < |columns| ==> !EqualFold(name, columns[j].ColumnName)
  {
    var k := IndexOfName(ColumnNames(columns), name);
    if k >= 0 then (columns, k) else (columns + [QueryColumn(name, length)], |columns|)
  }

  /** An existing entry with new settings; its name stays. */
  function Overwrite(v: QueryValue, value: Input, isDBString: bool, defaultValue: Input, nullDetect: Input): QueryValue
  {
    v.(IsDBString := isDBString, DefaultValue := defaultValue, NullDetectValue := nullDetect, Value := value)
  }

  /** `setColumnValue`: the entry named like column `index` (up to case)
      takes the new settings, or a new entry named after the column is
      appended. */
  function SetColumnValue(columns: seq<QueryColumn>, values: seq<QueryValue>, index: nat,
                          value: Input, isDBString: bool, defaultValue: Input, nullDetect: Input): seq<QueryValue>
    requires index < |columns|
  {
    var k := IndexOfName(ValueNames(values), columns[index].ColumnName);
    if k >= 0 then values[k := Overwrite(values[k], value, isDBString, defaultValue, nullDetect)]
    else values + [QueryValue(columns[index].ColumnName, value, defaultValue, nullDetect, isDBString)]
  }

  /** The value list of `SetColumnValue` as the source writes it: the
      position found among the VALUE entries is handed to `setColumnValue`
      as a COLUMN position, so the entry named like that column is the one
      set (or appended); nothing happens for DELETE or an unknown name. The
      registry invariant keeps that position inside the column list. */
  function SetColumnValueAsWritten(cmd: CommandType, columns: seq<QueryColumn>, values: seq<QueryValue>,
                                   name: string, value: Input): seq<QueryValue>
    requires Registered(columns, values)
  {
    var k := IndexOfName(ValueNames(values), name);
    if cmd == Delete || k < 0 then values
    else
      ValuesWithinColumns(columns, values);
      SetColumnValue(columns, values, k, value, true, Nil, Nil)
  }

  /** `SetColumnValue` as evidently intended: the entry with this name up to
      case becomes a string value without default or null detection. */
  function SetColumnValueFixed(cmd: CommandType, values: seq<QueryValue>, name: string, value: Input): seq<QueryValue>
  {
    var k := IndexOfName(ValueNames(values), name);
    if cmd == Delete || k < 0 then values else values[k := Overwrite(values[k], value, true, Nil, Nil)]
  }

  /** The lower-cased names in a list. */
  function Lowered(names: seq<string>): (r: seq<string>)
    ensures |r| == |names| && forall i :: 0 <= i < |names| ==> r[i] == ToLower(names[i])
  {
    seq(|names|, i requires 0 <= i < |names| => ToLower(names[i]))
  }

  /** A list without repetitions has as many distinct elements as items. */
  lemma {:induction false} DistinctCard(s: seq<string>)
    requires forall i, j :: 0 <= i < j < |s| ==> s[i] != s[j]
    ensures |set x | x in s| == |s|
    decreases |s|
  {
    if s != [] {
      var init := s[..|s| - 1];
      DistinctCard(init);
      assert (set x | x in s) == (set x | x in init) + {s[|s| - 1]};
      assert s[|s| - 1] !in (set x | x in init);
    }
  }

  /** A list has at most as many distinct elements as items. */
  lemma {:induction false} CardAtMost(s: seq<string>)
    ensures |set x | x in s| <= |s|
    decreases |s|
  {
    if s != [] {
      var init := s[..|s| - 1];
      CardAtMost(init);
      assert (set x | x in s) == (set x | x in init) + {s[|s| - 1]};
    }
  }

  /** A registered state never has more value entries than columns: the
      entries' names are distinct up to case and each is a column's name. */
  lemma ValuesWithinColumns(columns: seq<QueryColumn>, values: seq<QueryValue>)
    requires Registered(columns, values)
    ensures |values| <= |columns|
  {
    var lv := Lowered(ValueNames(values));
    var lc := Lowered(ColumnNames(columns));
    DistinctCard(lv);
    CardAtMost(lc);
    var sv := set x | x in lv;
    var sc := set x | x in lc;
    assert sv <= sc by {
      forall x | x in sv
        ensures x in sc
      {
        var i :| 0 <= i < |lv| && lv[i] == x;
        var k :| 0 <= k < |columns| && ColumnNames(columns)[k] == values[i].ColumnName;
        assert lc[k] == x;
      }
    }
    assert sc == sv + (sc - sv);
  }

  // ---------------------------------------------------------------------------
  // Literal values

  /** A value whose dynamic type is Go's `string`. */
  predicate IsGoString(x: Input)
  {
    x.Plain? && x.s.Str?
  }

  /** The value `evaluateValue` renders: the value, or the default when the
      value is nil. */
  function Final(v: QueryValue): Input
  {
    if v.Value != Nil then v.Value else v.DefaultValue
  }

  /** The literal text of a non-nil value: decimal integers, the `%f` form
      of floats, `1`/`0` for booleans, a string quoted with `'` and escaped
      when it is a database string and verbatim otherwise, a quoted RFC 3339
      timestamp, and nothing for any other kind. */
  function Literal(x: Input, isDBString: bool, enclosing: string, escape: string): string
  {
    match x
    case Plain(Integer(_, n)) => IntToString(n)
    case Plain(Floating(_, fixed, _)) => fixed
    case Plain(Boolean(b)) => if b then "1" else "0"
    case Plain(Str(s)) => if isDBString then "'" + Escape(enclosing, escape, s) + "'" else s
    case Plain(Timestamp(t)) => "'" + t + "'"
    case _ => ""
  }

  /** `evaluateValue`: `NULL` when the final value equals the entry's
      null-detection value, the empty text when there is no final value,
      otherwise the value's literal. */
  function EvaluateValue(v: QueryValue, enclosing: string, escape: string): (r: string)
    ensures v.NullDetectValue != Nil && GoEqual(Final(v), v.NullDetectValue) ==> r == "NULL"
    ensures v.Value == Nil && v.DefaultValue == Nil ==> r == ""
    ensures !(v.NullDetectValue != Nil && GoEqual(Final(v), v.NullDetectValue)) ==>
      r == Literal(Final(v), v.IsDBString, enclosing, escape)
  {
    var final := Final(v);
    if v.NullDetectValue != Nil && GoEqual(final, v.NullDetectValue) then "NULL"
    else if final == Nil then ""
    else Literal(final, v.IsDBString, enclosing, escape)
  }

  // ---------------------------------------------------------------------------
  // Validation and the statement's frame

  /** `basicValidation`: a table name is needed, and columns are needed for
      every command but DELETE; the message says which is missing. */
  function BasicValidation(b: Builder): (r: (bool, string))
    ensures r.0 <==> b.TableName != "" && (|b.Columns| > 0 || b.CommandType == Delete)
    ensures r.0 <==> r.1 == ""
  {
    if |b.TableName| == 0 then (false, "TableName was not specified")
    else if |b.Columns| == 0 && b.CommandType != Delete then (false, "No columns were specified")
    else (true, "")
  }

  /** The opening of the statement, by command. */
  function Head(b: Builder): string
  {
    match b.CommandType
    case Select => SelectHead(false, b.ResultLimit, b.ResultLimitPosition)
    case Insert => "INSERT INTO " + b.TableName + " ("
    case Update => "UPDATE " + b.TableName + " SET "
    case Delete => "DELETE FROM " + b.TableName
  }

  /** The condition text after `WHERE`, which is written only when there is some. */
  function Where(conditions: string): string
  {
    if |conditions| > 0 then " WHERE " + conditions else ""
  }

  /** The end both builders write: ORDER BY, GROUP BY, a rear LIMIT and `;`. */
  function End(b: Builder): string
  {
    Trailer(b.Order, b.Group, b.ResultLimit, b.ResultLimitPosition)
  }

  // ---------------------------------------------------------------------------
  // BuildString: the literal statement

  datatype StringResult = Sql(text: string) | Failure(message: string)

  /** The UPDATE assignment of one entry, with the value inlined. */
  function Assignment(v: QueryValue, enclosing: string, escape: string): string
  {
    v.ColumnName + " = " + EvaluateValue(v, enclosing, escape)
  }

  /** The column items: the entries' names for SELECT and INSERT, their
      assignments for UPDATE, nothing for DELETE. */
  function StringColumnItems(b: Builder): (r: seq<string>)
    ensures b.CommandType != Delete ==> |r| == |b.Values|
  {
    match b.CommandType
    case Select => ValueNames(b.Values)
    case Insert => ValueNames(b.Values)
    case Update =>
      seq(|b.Values|, i requires 0 <= i < |b.Values| => Assignment(b.Values[i], b.StringEnclosingChar, b.StringEscapeChar))
    case Delete => []
  }

  /** The column text: the items when there are value entries; otherwise the
      column names, for SELECT only. */
  function StringColumns(b: Builder): string
  {
    if |b.Values| > 0 then Join(StringColumnItems(b), ", ")
    else if b.CommandType == Select then Join(ColumnNames(b.Columns), ", ")
    else ""
  }

  /** The INSERT VALUES items: each entry's literal, in entry order. */
  function StringValueItems(b: Builder): (r: seq<string>)
    ensures |r| == |b.Values|
  {
    seq(|b.Values|, i requires 0 <= i < |b.Values| => EvaluateValue(b.Values[i], b.StringEnclosingChar, b.StringEscapeChar))
  }

  /** One condition: `expr = literal` when it has a value, the bare
      expression otherwise. */
  function StringCondition(c: QueryFilter, enclosing: string, escape: string): string
  {
    if c.Value != Nil then
      c.ColumnNameOrExpression + " = " +
      EvaluateValue(QueryValue(c.ColumnNameOrExpression, c.Value, Nil, Nil, c.IsDBString), enclosing, escape)
    else c.ColumnNameOrExpression
  }

  /** The condition text: every filter's condition joined by ` AND `; INSERT
      has none. */
  function StringConditions(b: Builder): string
  {
    if b.CommandType == Insert then "" else Join(StringConditionItems(b), " AND ")
  }

  /** Every filter's condition, in filter order. */
  function StringConditionItems(b: Builder): (r: seq<string>)
    ensures |r| == |b.Filter|
  {
    seq(|b.Filter|, i requires 0 <= i < |b.Filter| =>
      StringCondition(b.Filter[i], b.StringEnclosingChar, b.StringEscapeChar))
  }

  /** `BuildString`. */
  function BuildStringOf(b: Builder): (r: StringResult)
    ensures r.Failure? <==> !BasicValidation(b).0
    ensures r.Failure? ==> r.message == BasicValidation(b).1
    ensures r.Sql? ==> HasSuffix(r.text, End(b)) && |Head(b)| <= |r.text| && r.text[..|Head(b)|] == Head(b)
  {
    var (ok, message) := BasicValidation(b);
    if !ok then Failure(message)
    else
      var body := StringColumns(b) +
        (if b.CommandType == Select then " FROM " + b.TableName else "") +
        (if b.CommandType == Insert then ") VALUES (" + Join(StringValueItems(b), ", ") + ")" else "") +
        Where(StringConditions(b));
      assert (Head(b) + body + End(b))[..|Head(b)|] == Head(b);
      Sql(Head(b) + body + End(b))
  }

  // ---------------------------------------------------------------------------
  // BuildDataHelper: the prepared statement

  /** Why `BuildDataHelper` panics: the validation message, a value that is
      not a Go string where one is asserted, or a VALUES slot with no entry. */
  datatype PanicReason = InvalidBuilder(message: string) | NotAString | IndexOutOfRange

  datatype HelperOutcome = Panicked(reason: PanicReason) | Prepared(query: string, args: seq<Input>)

  /** The text of a value asserted to be a Go string. */
  function GoString(x: Input): string
  {
    if IsGoString(x) then x.s.s else ""
  }

  /** An entry written as SQL text whose value is not a Go string: the type
      assertion on it panics. */
  predicate AssertionFails(v: QueryValue)
  {
    !v.IsDBString && !IsGoString(v.Value)
  }

  /** Whether an UPDATE's column loop panics. */
  predicate UpdateFails(vs: seq<QueryValue>)
  {
    exists i :: 0 <= i < |vs| && AssertionFails(vs[i])
  }

  /** How the INSERT VALUES loop over the first `k` slots panics, if it
      does: at the first slot with no entry or with a failing assertion. */
  function InsertFailure(vs: seq<QueryValue>, k: nat): (r: Option<PanicReason>)
    ensures r.Some? ==> r.value == IndexOutOfRange || r.value == NotAString
  {
    if k == 0 then None
    else if InsertFailure(vs, k - 1).Some? then InsertFailure(vs, k - 1)
    else if k - 1 >= |vs| then Some(IndexOutOfRange)
    else if AssertionFails(vs[k - 1]) then Some(NotAString)
    else None
  }

  /** One column item: the name for SELECT and INSERT; for UPDATE the name
      with a placeholder for a database string and with the value's text
      inlined otherwise. */
  function HelperColumn(v: QueryValue, cmd: CommandType): seq<Piece>
  {
    match cmd
    case Update =>
      if v.IsDBString then [Lit(v.ColumnName + " = "), Param("?", v.Value)]
      else [Lit(v.ColumnName + " = " + GoString(v.Value))]
    case Delete => []
    case _ => [Lit(v.ColumnName)]
  }

  /** The column items, each after its `, ` separator. */
  function HelperColumns(vs: seq<QueryValue>, cmd: CommandType): seq<Piece>
  {
    if vs == [] then []
    else HelperColumns(vs[..|vs| - 1], cmd) + [Lit(Sep(|vs| - 1, ", "))] + HelperColumn(vs[|vs| - 1], cmd)
  }

  /** One INSERT VALUES slot: a placeholder for a database string, the
      value's text otherwise. */
  function HelperSlot(v: QueryValue): seq<Piece>
  {
    if v.IsDBString then [Param("?", v.Value)] else [Lit(GoString(v.Value))]
  }

  /** The VALUES slots, each after its `,` separator. */
  function HelperSlots(vs: seq<QueryValue>): seq<Piece>
  {
    if vs == [] then []
    else HelperSlots(vs[..|vs| - 1]) + [Lit(Sep(|vs| - 1, ","))] + HelperSlot(vs[|vs| - 1])
  }

  /** One condition: `expr = ?` when it has a value, the bare expression
      otherwise. */
  function HelperCondition(c: QueryFilter): seq<Piece>
  {
    if c.Value != Nil then [Lit(c.ColumnNameOrExpression + " = "), Param("?", c.Value)]
    else [Lit(c.ColumnNameOrExpression)]
  }

  /** The conditions, each after its ` AND ` separator. */
  function HelperConditions(fs: seq<QueryFilter>): seq<Piece>
  {
    if fs == [] then []
    else HelperConditions(fs[..|fs| - 1]) + [Lit(Sep(|fs| - 1, " AND "))] + HelperCondition(fs[|fs| - 1])
  }

  /** The WHERE clause of the prepared statement; INSERT has none. */
  function HelperWhere(b: Builder): seq<Piece>
  {
    if b.CommandType == Insert then []
    else
      var cond := HelperConditions(b.Filter);
      if |Render(cond)| > 0 then [Lit(" WHERE ")] + cond else []
  }

  /** The column list of the prepared statement; DELETE has none. */
  function HelperColumnPart(b: Builder): seq<Piece>
  {
    if b.CommandType == Delete then [] else HelperColumns(b.Values, b.CommandType)
  }

  function HelperFromPart(b: Builder): (r: seq<Piece>)
    ensures LitOnly(r)
  {
    if b.CommandType == Select then [Lit(" FROM " + b.TableName)] else []
  }

  /** The INSERT VALUES list, for an INSERT that does not panic: one slot
      per column, taken from the first `|Columns|` entries. */
  function HelperValuesPart(b: Builder): seq<Piece>
  {
    if b.CommandType == Insert && |b.Columns| <= |b.Values|
    then [Lit(") VALUES (")] + HelperSlots(b.Values[..|b.Columns|]) + [Lit(")")]
    else []
  }

  /** The prepared statement as pieces. */
  function HelperPieces(b: Builder): seq<Piece>
  {
    [Lit(Head(b))] + HelperColumnPart(b) + HelperFromPart(b) + HelperValuesPart(b) + HelperWhere(b) + [Lit(End(b))]
  }

  /** The column arguments: for INSERT and UPDATE, the values of the entries
      written as SQL text (`IsDBString` false) as the source collects them,
      or of the database strings (`fixed`), in entry order. */
  function HelperColumnArgs(vs: seq<QueryValue>, cmd: CommandType, fixed: bool): seq<Input>
  {
    if vs == [] then []
    else
      var v := vs[|vs| - 1];
      HelperColumnArgs(vs[..|vs| - 1], cmd, fixed) +
      (if (cmd == Insert || cmd == Update) && v.IsDBString == fixed then [v.Value] else [])
  }

  /** The filter arguments: every non-nil filter value, in filter order;
      none for INSERT. */
  function HelperFilterArgs(fs: seq<QueryFilter>, cmd: CommandType): seq<Input>
  {
    if fs == [] then []
    else
      var c := fs[|fs| - 1];
      HelperFilterArgs(fs[..|fs| - 1], cmd) + (if cmd != Insert && c.Value != Nil then [c.Value] else [])
  }

  /** `BuildDataHelper`: a panic, or the statement and its arguments. The
      source collects the column arguments of the entries it inlined
      (`fixed` false); `fixed` collects those of its placeholders. */
  function DataHelperOf(b: Builder, fixed: bool): (r: HelperOutcome)
    ensures r.Panicked? && r.reason.InvalidBuilder? <==> !BasicValidation(b).0
    ensures r.Prepared? ==> BasicValidation(b).0 && HasSuffix(r.query, End(b))
    ensures r.Prepared? && b.CommandType == Insert ==> |b.Columns| <= |b.Values|
  {
    var (ok, message) := BasicValidation(b);
    if !ok then Panicked(InvalidBuilder(message))
    else if b.CommandType == Update && UpdateFails(b.Values) then Panicked(NotAString)
    else if b.CommandType == Insert && InsertFailure(b.Values, |b.Columns|).Some? then
      Panicked(InsertFailure(b.Values, |b.Columns|).value)
    else
      InsertSlotsExist(b.Values, |b.Columns|);
      var ps := HelperPieces(b);
      RenderAppend(ps[..|ps| - 1], [Lit(End(b))]);
      assert ps[..|ps| - 1] + [Lit(End(b))] == ps;
      Prepared(Render(ps), HelperColumnArgs(b.Values, b.CommandType, fixed) + HelperFilterArgs(b.Filter, b.CommandType))
  }

  /** The INSERT VALUES loop gets past every slot exactly when every slot
      has an entry whose string assertion holds. */
  lemma {:induction false} InsertSlotsExist(vs: seq<QueryValue>, k: nat)
    ensures InsertFailure(vs, k).None? <==> k <= |vs| && forall i :: 0 <= i < k ==> !AssertionFails(vs[i])
    decreases k
  {
    if k > 0 {
      InsertSlotsExist(vs, k - 1);
    }
  }
}
