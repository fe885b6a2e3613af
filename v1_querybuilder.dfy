/** The first-generation builder as an object: its registry methods append
    to and overwrite its lists in place, and its two builders write the
    statement in loops. Every method is proved against the functions of
    `V1Spec`, whose properties are proved in `V1Properties`. */
module V1QueryBuilder {
  import opened Values
  import opened Text
  import opened Dialect
  import opened Emission
  import opened V1Spec
  import opened V1Properties

  class QueryBuilder {
    var TableName: string
    var CommandType: CommandType
    var Columns: seq<QueryColumn>
    var Values: seq<QueryValue>
    var Order: seq<QuerySort>
    var Group: seq<string>
    var Filter: seq<QueryFilter>
    var StringEnclosingChar: string
    var StringEscapeChar: string
    var ResultLimitPosition: Limit
    var ResultLimit: string

    /** The state as a value. */
    function Snapshot(): Builder
      reads this
    {
      Builder(TableName, CommandType, Columns, Values, Order, Group, Filter,
              StringEnclosingChar, StringEscapeChar, ResultLimitPosition, ResultLimit)
    }

    /** The registry invariant the registry methods keep. */
    ghost predicate Valid()
      reads this
    {
      Registered(Columns, Values)
    }

    /** `NewQueryBuilder`, `NewQueryBuilderWithCommandType` and
        `NewQueryBuilderBare`: a builder for a table (empty for the bare
        one) and a command (SELECT unless given), strings enclosed in `'`
        and escaped with a backslash, the limit at the rear and no limit. */
    constructor (table: string, cmd: CommandType)
      ensures Valid()
      ensures Snapshot() == Builder(table, cmd, [], [], [], [], [], "'", "\\", Rear, "")
    {
      TableName := table;
      CommandType := cmd;
      Columns := [];
      Values := [];
      Order := [];
      Group := [];
      Filter := [];
      StringEnclosingChar := "'";
      StringEscapeChar := "\\";
      ResultLimitPosition := Rear;
      ResultLimit := "";
    }

    // -------------------------------------------------------------------------
    // The registry

    /** `addColumn`: the index of the column with this name up to case; a new
        column is appended when there is none. */
    method addColumn(name: string, length: int) returns (index: nat)
      modifies this`Columns
      ensures (Columns, index) == V1Spec.AddColumn(old(Columns), name, length)
      ensures Snapshot() == old(Snapshot()).(Columns := Columns)
    {
      var i := 0;
      while i < |Columns| && !EqualFold(name, Columns[i].ColumnName)
        invariant 0 <= i <= |Columns|
        invariant forall j :: 0 <= j < i ==> !EqualFold(name, Columns[j].ColumnName)
      {
        i := i + 1;
      }
      if i < |Columns| {
        return i;
      }
      Columns := Columns + [QueryColumn(name, length)];
      index := |Columns| - 1;
    }

    /** `setColumnValue`: the entry named like column `index` takes the new
        settings, or a new entry named after the column is appended. */
    method setColumnValue(index: nat, value: Input, isDBString: bool, defaultValue: Input, nullDetect: Input)
      requires index < |Columns|
      modifies this`Values
      ensures Values == V1Spec.SetColumnValue(old(Columns), old(Values), index, value, isDBString, defaultValue, nullDetect)
      ensures Snapshot() == old(Snapshot()).(Values := Values)
    {
      var name := Columns[index].ColumnName;
      var i := 0;
      while i < |Values| && !EqualFold(name, Values[i].ColumnName)
        invariant 0 <= i <= |Values|
        invariant forall j :: 0 <= j < i ==> !EqualFold(name, Values[j].ColumnName)
      {
        i := i + 1;
      }
      if i < |Values| {
        Values := Values[i := Overwrite(Values[i], value, isDBString, defaultValue, nullDetect)];
      } else {
        Values := Values + [QueryValue(name, value, defaultValue, nullDetect, isDBString)];
      }
    }

    /** `AddColumn`: a column of length 255, without a value entry; nothing
        for DELETE. */
    method AddColumn(name: string)
      requires Valid()
      modifies this`Columns
      ensures Valid()
      ensures Columns == if old(CommandType) == Delete then old(Columns) else V1Spec.AddColumn(old(Columns), name, 255).0
      ensures Snapshot() == old(Snapshot()).(Columns := Columns)
    {
      if CommandType != Delete {
        AddColumnKeeps(Columns, Values, name, 255);
        var _ := addColumn(name, 255);
      }
    }

    /** `AddColumnWithLength`: as `AddColumn`, with the given length. */
    method AddColumnWithLength(name: string, length: int)
      requires Valid()
      modifies this`Columns
      ensures Valid()
      ensures Columns == if old(CommandType) == Delete then old(Columns) else V1Spec.AddColumn(old(Columns), name, length).0
      ensures Snapshot() == old(Snapshot()).(Columns := Columns)
    {
      if CommandType != Delete {
        AddColumnKeeps(Columns, Values, name, length);
        var _ := addColumn(name, length);
      }
    }

    /** `SetColumnValue` as the source writes it: the position of the entry
        named `name` is handed on as a column position (see
        `SetColumnValueAsWritten`); the SQL-function flag is not used;
        nothing for DELETE. */
    method SetColumnValue(name: string, value: Input, isSQLFunction: bool)
      requires Valid()
      modifies this`Values
      ensures Valid()
      ensures Values == SetColumnValueAsWritten(old(CommandType), old(Columns), old(Values), name, value)
      ensures Snapshot() == old(Snapshot()).(Values := Values)
    {
      SetColumnValueAsWrittenKeeps(CommandType, Columns, Values, name, value);
      if CommandType == Delete {
        return;
      }
      var i := 0;
      while i < |Values| && !EqualFold(name, Values[i].ColumnName)
        invariant 0 <= i <= |Values|
        invariant forall j :: 0 <= j < i ==> !EqualFold(name, Values[j].ColumnName)
      {
        i := i + 1;
      }
      IndexOfNameAt(ValueNames(Values), name, i);
      if i < |Values| {
        ValuesWithinColumns(Columns, Values);
        setColumnValue(i, value, true, Nil, Nil);
      }
    }

    /** Registers a column of length 255 and sets its entry; the six
        `AddColumn...Value...` methods are this with their own settings. */
    method putColumnValue(name: string, value: Input, isDBString: bool, defaultValue: Input, nullDetect: Input)
      requires Valid()
      modifies this`Columns, this`Values
      ensures Valid()
      ensures var (cols, idx) := V1Spec.AddColumn(old(Columns), name, 255);
        Columns == cols && Values == V1Spec.SetColumnValue(cols, old(Values), idx, value, isDBString, defaultValue, nullDetect)
      ensures Snapshot() == old(Snapshot()).(Columns := Columns, Values := Values)
    {
      AddColumnKeeps(Columns, Values, name, 255);
      var ci := addColumn(name, 255);
      SetColumnValueKeeps(Columns, Values, ci, value, isDBString, defaultValue, nullDetect);
      setColumnValue(ci, value, isDBString, defaultValue, nullDetect);
    }

    /** `AddColumnValue`: a database string, quoted by `BuildString`. */
    method AddColumnValue(name: string, value: Input)
      requires Valid()
      modifies this`Columns, this`Values
      ensures Valid()
      ensures var (cols, idx) := V1Spec.AddColumn(old(Columns), name, 255);
        Columns == cols && Values == V1Spec.SetColumnValue(cols, old(Values), idx, value, true, Nil, Nil)
      ensures Snapshot() == old(Snapshot()).(Columns := Columns, Values := Values)
    {
      putColumnValue(name, value, true, Nil, Nil);
    }

    /** `AddColumnNonStringValue`: a value written as it is. */
    method AddColumnNonStringValue(name: string, value: Input)
      requires Valid()
      modifies this`Columns, this`Values
      ensures Valid()
      ensures var (cols, idx) := V1Spec.AddColumn(old(Columns), name, 255);
        Columns == cols && Values == V1Spec.SetColumnValue(cols, old(Values), idx, value, false, Nil, Nil)
      ensures Snapshot() == old(Snapshot()).(Columns := Columns, Values := Values)
    {
      putColumnValue(name, value, false, Nil, Nil);
    }

    /** `AddColumnValueWithDefault`: a database string with a default. */
    method AddColumnValueWithDefault(name: string, value: Input, defaultValue: Input)
      requires Valid()
      modifies this`Columns, this`Values
      ensures Valid()
      ensures var (cols, idx) := V1Spec.AddColumn(old(Columns), name, 255);
        Columns == cols && Values == V1Spec.SetColumnValue(cols, old(Values), idx, value, true, defaultValue, Nil)
      ensures Snapshot() == old(Snapshot()).(Columns := Columns, Values := Values)
    {
      putColumnValue(name, value, true, defaultValue, Nil);
    }

    /** `AddColumnNonStringValueWithDefault`: a value written as it is, with
        a default. */
    method AddColumnNonStringValueWithDefault(name: string, value: Input, defaultValue: Input)
      requires Valid()
      modifies this`Columns, this`Values
      ensures Valid()
      ensures var (cols, idx) := V1Spec.AddColumn(old(Columns), name, 255);
        Columns == cols && Values == V1Spec.SetColumnValue(cols, old(Values), idx, value, false, defaultValue, Nil)
      ensures Snapshot() == old(Snapshot()).(Columns := Columns, Values := Values)
    {
      putColumnValue(name, value, false, defaultValue, Nil);
    }

    /** `AddColumnValueWithDefaultNull`: a database string with a default
        and a null-detection value. */
    method AddColumnValueWithDefaultNull(name: string, value: Input, defaultValue: Input, nullDetect: Input)
      requires Valid()
      modifies this`Columns, this`Values
      ensures Valid()
      ensures var (cols, idx) := V1Spec.AddColumn(old(Columns), name, 255);
        Columns == cols && Values == V1Spec.SetColumnValue(cols, old(Values), idx, value, true, defaultValue, nullDetect)
      ensures Snapshot() == old(Snapshot()).(Columns := Columns, Values := Values)
    {
      putColumnValue(name, value, true, defaultValue, nullDetect);
    }

    /** `AddColumnNonStringValueDefaultNull`: a value written as it is, with
        a default and a null-detection value. */
    method AddColumnNonStringValueDefaultNull(name: string, value: Input, defaultValue: Input, nullDetect: Input)
      requires Valid()
      modifies this`Columns, this`Values
      ensures Valid()
      ensures var (cols, idx) := V1Spec.AddColumn(old(Columns), name, 255);
        Columns == cols && Values == V1Spec.SetColumnValue(cols, old(Values), idx, value, false, defaultValue, nullDetect)
      ensures Snapshot() == old(Snapshot()).(Columns := Columns, Values := Values)
    {
      putColumnValue(name, value, false, defaultValue, nullDetect);
    }

    /** `CleanStringValue`: every enclosing character gets the escape
        character in front. This is `Dialect.Escape`, the one escaping
        function both engines share, applied to the builder's settings. With
        one-character settings the result unescapes to the value; the empty
        value stays empty. */
    function CleanStringValue(value: string): (r: string)
      reads this
      ensures |StringEnclosingChar| == 1 && |StringEscapeChar| == 1 ==>
        Unescape(r, StringEnclosingChar[0], StringEscapeChar[0]) == value
      ensures |value| == 0 ==> r == ""
    {
      EscapeSettingsRoundTrip(StringEnclosingChar, StringEscapeChar, value);
      Escape(StringEnclosingChar, StringEscapeChar, value)
    }

    method AddFilterWithValue(expr: string, value: Input)
      modifies this`Filter
      ensures Filter == old(Filter) + [QueryFilter(expr, value, true)]
      ensures Snapshot() == old(Snapshot()).(Filter := Filter)
    {
      Filter := Filter + [QueryFilter(expr, value, true)];
    }

    method AddFilterWithNonStringValue(expr: string, value: Input)
      modifies this`Filter
      ensures Filter == old(Filter) + [QueryFilter(expr, value, false)]
      ensures Snapshot() == old(Snapshot()).(Filter := Filter)
    {
      Filter := Filter + [QueryFilter(expr, value, false)];
    }

    /** `AddFilter`: a condition written as it is, with no value. */
    method AddFilter(expr: string)
      modifies this`Filter
      ensures Filter == old(Filter) + [QueryFilter(expr, Nil, false)]
      ensures Snapshot() == old(Snapshot()).(Filter := Filter)
    {
      Filter := Filter + [QueryFilter(expr, Nil, false)];
    }

    method AddOrder(column: string, sorting: Sort)
      modifies this`Order
      ensures Order == old(Order) + [QuerySort(column, sorting)]
      ensures Snapshot() == old(Snapshot()).(Order := Order)
    {
      Order := Order + [QuerySort(column, sorting)];
    }

    method AddGroup(group: string)
      modifies this`Group
      ensures Group == old(Group) + [group]
      ensures Snapshot() == old(Snapshot()).(Group := Group)
    {
      Group := Group + [group];
    }

    // -------------------------------------------------------------------------
    // The parts both builders write alike

    /** The opening of the statement, by command. */
    method WriteHead() returns (text: string)
      ensures text == Head(Snapshot())
    {
      match CommandType {
        case Select =>
          text := "SELECT ";
          if |ResultLimit| > 0 && ResultLimitPosition == Front {
            text := text + " TOP " + ResultLimit + " ";
          }
        case Insert =>
          text := "INSERT INTO " + TableName + " (";
        case Update =>
          text := "UPDATE " + TableName + " SET ";
        case Delete =>
          text := "DELETE FROM " + TableName;
      }
    }

    /** ORDER BY, GROUP BY, a rear LIMIT and the semicolon. */
    method WriteEnd() returns (text: string)
      ensures text == End(Snapshot())
    {
      text := "";
      if |Order| > 0 {
        var items := "";
        var cma := "";
        var i := 0;
        while i < |Order|
          invariant 0 <= i <= |Order|
          invariant items == OrderItems(Order[..i]) && cma == Sep(i, ", ")
        {
          assert Order[..i + 1][..i] == Order[..i];
          items := items + cma + Order[i].column;
          match Order[i].order {
            case Asc => items := items + " ASC";
            case Desc => items := items + " DESC";
          }
          cma := ", ";
          i := i + 1;
        }
        assert Order[..i] == Order;
        text := " ORDER BY " + items;
      }
      if |Group| > 0 {
        text := text + (" GROUP BY " + Join(Group, ", "));
      }
      if |ResultLimit| > 0 && ResultLimitPosition == Rear {
        text := text + (" LIMIT " + ResultLimit);
      }
      text := text + ";";
    }

    // -------------------------------------------------------------------------
    // BuildString

    /** The column text: the entries' names (SELECT, INSERT) or assignments
        with the value inlined (UPDATE); the column names when there are no
        entries, for SELECT only. */
    method WriteStringColumns() returns (text: string)
      ensures text == StringColumns(Snapshot())
    {
      if |Values| > 0 {
        text := WriteStringColumnItems();
      } else if CommandType == Select {
        text := WriteColumnNames();
      } else {
        text := "";
      }
    }

    /** The column items of the value entries, separated by `, `. */
    method WriteStringColumnItems() returns (text: string)
      ensures text == Join(StringColumnItems(Snapshot()), ", ")
    {
      ghost var items := StringColumnItems(Snapshot());
      var vs, cmd, enc, esc := Values, CommandType, StringEnclosingChar, StringEscapeChar;
      text := "";
      var cma := "";
      var i := 0;
      while i < |vs|
        invariant 0 <= i <= |vs|
        invariant cmd != Delete ==> |items| == |vs| && text == Join(items[..i], ", ") && cma == Sep(i, ", ")
        invariant cmd == Delete ==> items == [] && text == ""
      {
        if cmd != Delete {
          var item := if cmd == Update then Assignment(vs[i], enc, esc) else vs[i].ColumnName;
          text, cma := JoinPass(items, i, item, ", ", text, cma);
        }
        i := i + 1;
      }
      if cmd != Delete {
        assert items[..i] == items;
      }
    }

    /** One more item of a list written with a running separator. */
    static method JoinPass(ghost items: seq<string>, i: nat, item: string, sep: string, text: string, cma: string)
      returns (text': string, cma': string)
      requires i < |items| && items[i] == item
      requires text == Join(items[..i], sep) && cma == Sep(i, sep)
      ensures text' == Join(items[..i + 1], sep) && cma' == Sep(i + 1, sep)
    {
      JoinSnoc(items[..i], item, sep);
      assert items[..i + 1] == items[..i] + [item];
      text' := text + cma + item;
      cma' := sep;
    }

    /** The registered column names, separated by `, `. */
    method WriteColumnNames() returns (text: string)
      ensures text == Join(ColumnNames(Columns), ", ")
    {
      ghost var names := ColumnNames(Columns);
      var cs := Columns;
      text := "";
      var cma := "";
      var i := 0;
      while i < |cs|
        invariant 0 <= i <= |cs|
        invariant text == Join(names[..i], ", ") && cma == Sep(i, ", ")
      {
        text, cma := JoinPass(names, i, cs[i].ColumnName, ", ", text, cma);
        i := i + 1;
      }
      assert names[..i] == names;
    }

    /** The INSERT VALUES text: each entry's literal, separated by `, `. */
    method WriteStringValues() returns (text: string)
      ensures text == Join(StringValueItems(Snapshot()), ", ")
    {
      ghost var items := StringValueItems(Snapshot());
      var vs, enc, esc := Values, StringEnclosingChar, StringEscapeChar;
      text := "";
      var cma := "";
      var i := 0;
      while i < |vs|
        invariant 0 <= i <= |vs|
        invariant text == Join(items[..i], ", ") && cma == Sep(i, ", ")
      {
        text, cma := JoinPass(items, i, EvaluateValue(vs[i], enc, esc), ", ", text, cma);
        i := i + 1;
      }
      assert items[..i] == items;
    }

    /** The WHERE clause: every filter's condition, with its value inlined,
        joined by ` AND `; nothing for INSERT or when there is no text. */
    method WriteStringConditions() returns (text: string)
      ensures text == Where(StringConditions(Snapshot()))
    {
      ghost var items := StringConditionItems(Snapshot());
      var fs, cmd, enc, esc := Filter, CommandType, StringEnclosingChar, StringEscapeChar;
      var tmpsql := "";
      var cma := "";
      var i := 0;
      while i < |fs|
        invariant 0 <= i <= |fs|
        invariant cmd != Insert ==> tmpsql == Join(items[..i], " AND ") && cma == Sep(i, " AND ")
        invariant cmd == Insert ==> tmpsql == ""
      {
        if cmd == Select || cmd == Update || cmd == Delete {
          var c := fs[i];
          var item;
          if c.Value != Nil {
            item := c.ColumnNameOrExpression + " = " +
              EvaluateValue(QueryValue(c.ColumnNameOrExpression, c.Value, Nil, Nil, c.IsDBString), enc, esc);
          } else {
            item := c.ColumnNameOrExpression;
          }
          tmpsql, cma := JoinPass(items, i, item, " AND ", tmpsql, cma);
        }
        i := i + 1;
      }
      assert items[..i] == items;
      text := if |tmpsql| > 0 then " WHERE " + tmpsql else "";
    }

    /** `BuildString`: the validation message as the error, or the
        statement with every value inlined as a literal. */
    method BuildString() returns (query: string, err: Option<string>)
      ensures BuildStringOf(Snapshot()) == if err.Some? then Failure(err.value) else Sql(query)
      ensures err.Some? ==> query == ""
    {
      var (valid, s) := BasicValidation(Snapshot());
      if !valid {
        return "", Some(s);
      }
      var head := WriteHead();
      var cols := WriteStringColumns();
      var from := if CommandType == Select then " FROM " + TableName else "";
      var vals := "";
      if CommandType == Insert {
        var tmpsql := WriteStringValues();
        vals := ") VALUES (" + tmpsql + ")";
      }
      var where := WriteStringConditions();
      var end := WriteEnd();
      query := head + (cols + from + vals + where) + end;
      err := None;
    }

    // -------------------------------------------------------------------------
    // BuildDataHelper

    /** The column list of the prepared statement (none for DELETE); an
        UPDATE entry written as text whose value is not a Go string makes
        the type assertion fail. */
    method WriteHelperColumns() returns (text: string, failed: bool)
      ensures failed <==> CommandType == Update && UpdateFails(Values)
      ensures !failed ==> text == if CommandType == Delete then "" else Render(HelperColumns(Values, CommandType))
    {
      var vs, cmd := Values, CommandType;
      text := "";
      var cma := "";
      var i := 0;
      assert vs[..0] == [];
      while i < |vs|
        invariant 0 <= i <= |vs|
        invariant cmd == Update ==> !FailsBefore(vs, i)
        invariant cmd != Delete ==> text == Render(HelperColumns(vs[..i], cmd)) && cma == Sep(i, ", ")
        invariant cmd == Delete ==> text == ""
      {
        if cmd != Delete {
          text, cma, failed := HelperColumnPass(vs, i, cmd, text, cma);
          if failed {
            return;
          }
        }
        i := i + 1;
      }
      assert vs[..i] == vs;
      FailsBeforeAll(vs, i);
      failed := false;
    }

    /** One column item, after its separator. */
    static method HelperColumnPass(vs: seq<QueryValue>, i: nat, cmd: CommandType, text: string, cma: string)
      returns (text': string, cma': string, failed: bool)
      requires i < |vs| && cmd != Delete
      requires text == Render(HelperColumns(vs[..i], cmd)) && cma == Sep(i, ", ")
      ensures failed <==> cmd == Update && AssertionFails(vs[i])
      ensures !failed ==> text' == Render(HelperColumns(vs[..i + 1], cmd)) && cma' == Sep(i + 1, ", ")
    {
      var v := vs[i];
      HelperColumnsTextSnoc(vs, i, cmd);
      failed := false;
      cma' := ", ";
      var item := "";
      match cmd {
        case Select =>
          item := v.ColumnName;
        case Insert =>
          item := v.ColumnName;
        case Update =>
          if v.IsDBString {
            item := v.ColumnName + " = ?";
          } else if IsGoString(v.Value) {
            item := v.ColumnName + " = " + v.Value.s.s;
          } else {
            failed := true;
          }
      }
      text' := if failed then text else text + cma + item;
    }

    /** The INSERT VALUES slots, one per column, written into an array and
        joined: the loop panics at the first slot with no entry, or whose
        entry is written as text but holds no Go string. */
    method WriteHelperSlots() returns (text: string, failure: Option<PanicReason>)
      ensures failure == InsertFailure(Values, |Columns|)
      ensures failure.None? ==> |Columns| <= |Values| && text == Render(HelperSlots(Values[..|Columns|]))
    {
      var vs := Values;
      var q := new string[|Columns|](_ => "");
      var cma := "";
      var i := 0;
      assert vs[..0] == [];
      while i < q.Length
        invariant 0 <= i <= q.Length && i <= |vs|
        invariant InsertFailure(vs, i).None?
        invariant Concat(q[..i]) == Render(HelperSlots(vs[..i])) && cma == Sep(i, ",")
      {
        failure := SlotPass(vs, i, q, cma);
        if failure.Some? {
          InsertFailureSticks(vs, i + 1, q.Length);
          return "", failure;
        }
        cma := ",";
        i := i + 1;
      }
      text := Join(q[..], "");
      SlotsJoined(q[..], vs);
      failure := None;
    }

    /** One VALUES slot, after its separator, or the panic it causes. */
    static method SlotPass(vs: seq<QueryValue>, i: nat, q: array<string>, cma: string) returns (failure: Option<PanicReason>)
      requires i < q.Length && i <= |vs|
      requires InsertFailure(vs, i).None?
      requires Concat(q[..i]) == Render(HelperSlots(vs[..i])) && cma == Sep(i, ",")
      modifies q
      ensures failure == InsertFailure(vs, i + 1)
      ensures failure.None? ==> i < |vs| && Concat(q[..i + 1]) == Render(HelperSlots(vs[..i + 1]))
    {
      if i >= |vs| {
        return Some(IndexOutOfRange);
      }
      var v := vs[i];
      var slot;
      if v.IsDBString {
        slot := cma + "?";
      } else if IsGoString(v.Value) {
        slot := cma + v.Value.s.s;
      } else {
        return Some(NotAString);
      }
      ghost var qs := q[..i];
      SlotsConcatSnoc(qs, slot, vs, i);
      q[i] := slot;
      assert q[..i + 1] == qs + [slot];
      failure := None;
    }

    /** The WHERE clause of the prepared statement: `expr = ?` for each
        filter with a value, the bare expression otherwise, joined by
        ` AND `; nothing for INSERT or when there is no text. */
    method WriteHelperConditions() returns (text: string)
      ensures text == if CommandType == Insert then "" else Where(Render(HelperConditions(Filter)))
    {
      var tmpsql := "";
      if |Filter| > 0 {
        var cma := "";
        var i := 0;
        assert Filter[..0] == [];
        while i < |Filter|
          invariant 0 <= i <= |Filter|
          invariant CommandType != Insert ==> tmpsql == Render(HelperConditions(Filter[..i])) && cma == Sep(i, " AND ")
          invariant CommandType == Insert ==> tmpsql == ""
        {
          if CommandType == Select || CommandType == Update || CommandType == Delete {
            tmpsql, cma := ConditionPass(Filter, i, tmpsql, cma);
          }
          i := i + 1;
        }
        assert Filter[..i] == Filter;
      }
      text := if |tmpsql| > 0 then " WHERE " + tmpsql else "";
    }

    /** One condition, after its separator. */
    static method ConditionPass(fs: seq<QueryFilter>, i: nat, text: string, cma: string) returns (text': string, cma': string)
      requires i < |fs|
      requires text == Render(HelperConditions(fs[..i])) && cma == Sep(i, " AND ")
      ensures text' == Render(HelperConditions(fs[..i + 1])) && cma' == Sep(i + 1, " AND ")
    {
      HelperConditionsTextSnoc(fs, i);
      var c := fs[i];
      var item := if c.Value != Nil then c.ColumnNameOrExpression + " = ?" else c.ColumnNameOrExpression;
      text' := text + cma + item;
      cma' := " AND ";
    }

    /** The argument list as the source collects it: the values of the
        INSERT and UPDATE entries written as text, then the filter values
        (not for INSERT). */
    method CollectHelperArgs() returns (args: seq<Input>)
      ensures args == HelperColumnArgs(Values, CommandType, false) + HelperFilterArgs(Filter, CommandType)
    {
      args := [];
      var i := 0;
      while i < |Values|
        invariant 0 <= i <= |Values| && args == HelperColumnArgs(Values[..i], CommandType, false)
      {
        assert Values[..i + 1][..i] == Values[..i];
        if CommandType == Insert || CommandType == Update {
          if !Values[i].IsDBString {
            args := args + [Values[i].Value];
          }
        }
        i := i + 1;
      }
      assert Values[..i] == Values;
      ghost var columnArgs := args;
      if |Filter| > 0 {
        var j := 0;
        while j < |Filter|
          invariant 0 <= j <= |Filter| && args == columnArgs + HelperFilterArgs(Filter[..j], CommandType)
        {
          assert Filter[..j + 1][..j] == Filter[..j];
          var c := Filter[j];
          if (CommandType == Select || CommandType == Update || CommandType == Delete) && c.Value != Nil {
            AppendAssoc(columnArgs, HelperFilterArgs(Filter[..j], CommandType), [c.Value]);
            args := args + [c.Value];
          }
          j := j + 1;
        }
        assert Filter[..j] == Filter;
      }
    }

    /** `BuildDataHelper`: a panic, or the prepared statement and the
        argument list as the source collects it. */
    method BuildDataHelper() returns (r: HelperOutcome)
      ensures r == DataHelperOf(Snapshot(), false)
    {
      var (valid, s) := BasicValidation(Snapshot());
      if !valid {
        return Panicked(InvalidBuilder(s));
      }
      var head := WriteHead();
      var cols, failed := WriteHelperColumns();
      if failed {
        return Panicked(NotAString);
      }
      var from := if CommandType == Select then " FROM " + TableName else "";
      var vals := "";
      if CommandType == Insert {
        var slots, failure := WriteHelperSlots();
        if failure.Some? {
          return Panicked(failure.value);
        }
        vals := ") VALUES (" + slots + ")";
      }
      var where := WriteHelperConditions();
      var end := WriteEnd();
      var args := CollectHelperArgs();
      ghost var b := Snapshot();
      StatementText(b);
      WhereText(b);
      if CommandType == Insert {
        ValuesPartText(b);
      }
      r := Prepared(head + cols + from + vals + where + end, args);
    }
  }
}
