/** What the first-generation builder guarantees, and where it does not:
    the registry keeps one entry per column name, literals read back as the
    values they render, and the prepared statement's placeholders line up
    with its arguments only once the column arguments are collected from
    the entries that got a placeholder. */
module V1Properties {
  import opened Values
  import opened Text
  import opened Dialect
  import opened Emission
  import opened V1Spec

  // ---------------------------------------------------------------------------
  // The registry

  /** `addColumn` keeps the registry: a new column's name differs up to case
      from every earlier one, and the value entries are untouched. */
  lemma AddColumnKeeps(columns: seq<QueryColumn>, values: seq<QueryValue>, name: string, length: int)
    requires Registered(columns, values)
    ensures Registered(AddColumn(columns, name, length).0, values)
  {
    var (cols, idx) := AddColumn(columns, name, length);
    if idx == |columns| {
      forall i | 0 <= i < |values|
        ensures values[i].ColumnName in ColumnNames(cols)
      {
        var k :| 0 <= k < |columns| && ColumnNames(columns)[k] == values[i].ColumnName;
        assert ColumnNames(cols)[k] == values[i].ColumnName;
      }
    }
  }

  /** A value entry named like column `index` carries exactly that column's
      name: entries are named after columns, and columns differ up to case. */
  lemma EntryOfColumn(columns: seq<QueryColumn>, values: seq<QueryValue>, index: nat, k: nat)
    requires Registered(columns, values) && index < |columns| && k < |values|
    requires EqualFold(columns[index].ColumnName, values[k].ColumnName)
    ensures values[k].ColumnName == columns[index].ColumnName
  {
    var m :| 0 <= m < |columns| && ColumnNames(columns)[m] == values[k].ColumnName;
    assert EqualFold(columns[index].ColumnName, columns[m].ColumnName);
    assert m == index;
  }

  /** `setColumnValue` keeps the registry. Afterwards the one entry named
      like the column holds exactly the new settings under the column's name;
      it is the old entry when there was one, and appended otherwise; every
      other entry is unchanged. */
  lemma SetColumnValueKeeps(columns: seq<QueryColumn>, values: seq<QueryValue>, index: nat,
                            value: Input, isDBString: bool, defaultValue: Input, nullDetect: Input)
    requires Registered(columns, values) && index < |columns|
    ensures var vals := SetColumnValue(columns, values, index, value, isDBString, defaultValue, nullDetect);
      var k := IndexOfName(ValueNames(values), columns[index].ColumnName);
      var at := if k >= 0 then k else |values|;
      Registered(columns, vals) && at < |vals| &&
      vals[at] == QueryValue(columns[index].ColumnName, value, defaultValue, nullDetect, isDBString) &&
      (k >= 0 ==> |vals| == |values|) && (k < 0 ==> |vals| == |values| + 1) &&
      (forall j :: 0 <= j < |values| && j != at ==> vals[j] == values[j])
  {
    var name := columns[index].ColumnName;
    var k := IndexOfName(ValueNames(values), name);
    var vals := SetColumnValue(columns, values, index, value, isDBString, defaultValue, nullDetect);
    if k >= 0 {
      EntryOfColumn(columns, values, index, k);
      assert forall j :: 0 <= j < |vals| ==> vals[j].ColumnName == values[j].ColumnName;
    } else {
      assert ColumnNames(columns)[index] == name;
      forall i, j | 0 <= i < j < |vals|
        ensures !EqualFold(vals[i].ColumnName, vals[j].ColumnName)
      {
        if j == |values| {
          assert !EqualFold(name, values[i].ColumnName);
        }
      }
    }
  }

  /** As the source writes it, `SetColumnValue` can append: the entry
      position found for `b` is 0, and column 0 is `a`, which has no entry
      yet, so an `a` entry is appended and `b` keeps its old value. */
  lemma SetColumnValueAppends()
    ensures var columns := [QueryColumn("a", 255), QueryColumn("b", 255)];
      var values := [QueryValue("b", Plain(Integer(Int, 1)), Nil, Nil, true)];
      Registered(columns, values) &&
      SetColumnValueAsWritten(Select, columns, values, "b", Plain(Integer(Int, 2))) ==
        values + [QueryValue("a", Plain(Integer(Int, 2)), Nil, Nil, true)]
  {
    var columns := [QueryColumn("a", 255), QueryColumn("b", 255)];
    var values := [QueryValue("b", Plain(Integer(Int, 1)), Nil, Nil, true)];
    assert ToLower("a") == "a" && ToLower("b") == "b";
    assert ColumnNames(columns) == ["a", "b"];
    assert IndexOfName(ValueNames(values), "b") == 0;
    assert IndexOfName(ValueNames(values), "a") == -1;
  }

  /** The as-written `SetColumnValue` still keeps the registry. */
  lemma SetColumnValueAsWrittenKeeps(cmd: CommandType, columns: seq<QueryColumn>, values: seq<QueryValue>,
                                     name: string, value: Input)
    requires Registered(columns, values)
    ensures Registered(columns, SetColumnValueAsWritten(cmd, columns, values, name, value))
  {
    var k := IndexOfName(ValueNames(values), name);
    if cmd != Delete && k >= 0 {
      ValuesWithinColumns(columns, values);
      SetColumnValueKeeps(columns, values, k, value, true, Nil, Nil);
    }
  }

  /** The corrected `SetColumnValue` never appends: it keeps the registry,
      sets the entry with this name up to case (if any, and not for DELETE)
      to a string value without default or null detection, and leaves every
      other entry alone. */
  lemma SetColumnValueFixedUpdatesInPlace(cmd: CommandType, columns: seq<QueryColumn>, values: seq<QueryValue>,
                                          name: string, value: Input)
    requires Registered(columns, values)
    ensures var vals := SetColumnValueFixed(cmd, values, name, value);
      Registered(columns, vals) && |vals| == |values| &&
      forall j :: 0 <= j < |values| ==>
        vals[j].ColumnName == values[j].ColumnName &&
        if cmd != Delete && EqualFold(name, values[j].ColumnName)
        then vals[j] == Overwrite(values[j], value, true, Nil, Nil)
        else vals[j] == values[j]
  {
    var vals := SetColumnValueFixed(cmd, values, name, value);
    var k := IndexOfName(ValueNames(values), name);
    if cmd != Delete && k >= 0 {
      forall j | 0 <= j < |values| && j != k
        ensures !EqualFold(name, values[j].ColumnName)
      {
        if j > k {
          assert !EqualFold(values[k].ColumnName, values[j].ColumnName);
        }
      }
    }
  }

  // ---------------------------------------------------------------------------
  // Literals read back as their values

  /** An integer is rendered in decimal, which reads back as the number. */
  lemma IntegerLiteralRoundTrip(v: QueryValue, enclosing: string, escape: string, kind: IntKind, n: int)
    requires Final(v) == Plain(Integer(kind, n))
    requires !(v.NullDetectValue != Nil && GoEqual(Final(v), v.NullDetectValue))
    ensures ParseInt(EvaluateValue(v, enclosing, escape)) == n
  {
    IntToStringRoundTrip(n);
  }

  /** A database string is quoted with `'` and escaped; with one-character
      enclosing and escape settings, what is between the quotes unescapes
      to the string. */
  lemma StringLiteralRoundTrip(v: QueryValue, e: char, d: char, s: string)
    requires Final(v) == Plain(Str(s)) && v.IsDBString
    requires !(v.NullDetectValue != Nil && GoEqual(Final(v), v.NullDetectValue))
    ensures var r := EvaluateValue(v, [e], [d]);
      |r| >= 2 && r[0] == '\'' && r[|r| - 1] == '\'' && Unescape(r[1..|r| - 1], e, d) == s
  {
    var t := Escape([e], [d], s);
    EscapeRoundTrip(e, d, s);
    var r := EvaluateValue(v, [e], [d]);
    assert r == "'" + t + "'";
    assert r[1..|r| - 1] == t;
  }

  // ---------------------------------------------------------------------------
  // The prepared statement: placeholders and arguments

  /** The UPDATE column list holds a placeholder for each database string,
      carrying its value, in entry order; the other commands' lists hold
      none. */
  lemma {:induction false} HelperColumnsParams(vs: seq<QueryValue>, cmd: CommandType)
    ensures ParamValues(HelperColumns(vs, cmd)) == (if cmd == Update then HelperColumnArgs(vs, cmd, true) else [])
    decreases |vs|
  {
    if vs != [] {
      HelperColumnsParams(vs[..|vs| - 1], cmd);
      HelperColumnParams(vs, cmd);
    }
  }

  /** One more column item adds its placeholder's value, if it has one. */
  lemma HelperColumnParams(vs: seq<QueryValue>, cmd: CommandType)
    requires vs != []
    requires ParamValues(HelperColumns(vs[..|vs| - 1], cmd)) ==
      (if cmd == Update then HelperColumnArgs(vs[..|vs| - 1], cmd, true) else [])
    ensures ParamValues(HelperColumns(vs, cmd)) == (if cmd == Update then HelperColumnArgs(vs, cmd, true) else [])
  {
    var init := vs[..|vs| - 1];
    var v := vs[|vs| - 1];
    var a := HelperColumns(init, cmd);
    var x := Sep(|init|, ", ");
    assert HelperColumns(vs, cmd) == a + [Lit(x)] + HelperColumn(v, cmd);
    TextParams(a, x);
    if cmd == Update && v.IsDBString {
      PlaceholderParams(a + [Lit(x)], v.ColumnName + " = ", "?", v.Value);
    } else if cmd == Delete {
      assert a + [Lit(x)] + HelperColumn(v, cmd) == a + [Lit(x)];
    } else {
      TextParams(a + [Lit(x)], HelperColumn(v, cmd)[0].text);
      assert a + [Lit(x)] + HelperColumn(v, cmd) == a + [Lit(x)] + [Lit(HelperColumn(v, cmd)[0].text)];
    }
  }

  /** The VALUES slots hold a placeholder for each database string, carrying
      its value, in entry order. */
  lemma {:induction false} HelperSlotsParams(vs: seq<QueryValue>)
    ensures ParamValues(HelperSlots(vs)) == HelperColumnArgs(vs, Insert, true)
    decreases |vs|
  {
    if vs != [] {
      var init := vs[..|vs| - 1];
      var v := vs[|vs| - 1];
      var a := HelperSlots(init);
      var x := Sep(|init|, ",");
      HelperSlotsParams(init);
      TextParams(a, x);
      if v.IsDBString {
        PlaceholderParams(a, x, "?", v.Value);
        assert a + [Lit(x)] + HelperSlot(v) == a + [Lit(x), Param("?", v.Value)];
      } else {
        TextParams(a + [Lit(x)], GoString(v.Value));
      }
    }
  }

  /** The conditions hold one placeholder per filter with a value, carrying
      it, in filter order. */
  lemma {:induction false} HelperConditionsParams(fs: seq<QueryFilter>)
    ensures ParamValues(HelperConditions(fs)) == HelperFilterArgs(fs, Select)
    decreases |fs|
  {
    if fs != [] {
      var init := fs[..|fs| - 1];
      var c := fs[|fs| - 1];
      var a := HelperConditions(init);
      var x := Sep(|init|, " AND ");
      HelperConditionsParams(init);
      TextParams(a, x);
      if c.Value != Nil {
        PlaceholderParams(a + [Lit(x)], c.ColumnNameOrExpression + " = ", "?", c.Value);
      } else {
        TextParams(a + [Lit(x)], c.ColumnNameOrExpression);
      }
    }
  }

  /** Conditions without text come from filters without values. */
  lemma {:induction false} SilentConditions(fs: seq<QueryFilter>)
    ensures |Render(HelperConditions(fs))| == 0 ==> HelperFilterArgs(fs, Select) == []
    decreases |fs|
  {
    if fs != [] {
      var init := fs[..|fs| - 1];
      var c := fs[|fs| - 1];
      var a := HelperConditions(init);
      var x := Sep(|init|, " AND ");
      SilentConditions(init);
      RenderSnoc(a, x, "?", c.Value);
      if c.Value != Nil {
        RenderSnoc(a + [Lit(x)], c.ColumnNameOrExpression + " = ", "?", c.Value);
      } else {
        RenderSnoc(a + [Lit(x)], c.ColumnNameOrExpression, "?", c.Value);
      }
    }
  }

  /** Each entry of INSERT and UPDATE gives its argument to exactly one of
      the two selections: the source's (SQL text) or the placeholders'
      (database strings). */
  lemma {:induction false} ColumnArgsComplement(vs: seq<QueryValue>, cmd: CommandType)
    requires cmd == Insert || cmd == Update
    ensures |HelperColumnArgs(vs, cmd, false)| + |HelperColumnArgs(vs, cmd, true)| == |vs|
    decreases |vs|
  {
    if vs != [] {
      ColumnArgsComplement(vs[..|vs| - 1], cmd);
    }
  }

  /** The placeholders of a statement are those of its column list, its
      VALUES list and its WHERE clause, in that order. */
  lemma PiecesOfStatement(b: Builder)
    ensures ParamValues(HelperPieces(b)) ==
      ParamValues(HelperColumnPart(b)) + ParamValues(HelperValuesPart(b)) + ParamValues(HelperWhere(b))
  {
    LitOnlyNoParams([Lit(Head(b))]);
    LitOnlyNoParams(HelperFromPart(b));
    LitOnlyNoParams([Lit(End(b))]);
    QuietParts([Lit(Head(b))], HelperColumnPart(b), HelperFromPart(b), HelperValuesPart(b), HelperWhere(b), [Lit(End(b))]);
  }

  /** A part without placeholders adds none. */
  lemma QuietRight(x: seq<Piece>, q: seq<Piece>)
    requires ParamValues(q) == []
    ensures ParamValues(x + q) == ParamValues(x)
  {
    ParamsAppend(x, q);
  }
  lemma QuietLeft(q: seq<Piece>, x: seq<Piece>)
    requires ParamValues(q) == []
    ensures ParamValues(q + x) == ParamValues(x)
  {
    ParamsAppend(q, x);
  }
  /** Parts without placeholders contribute none to a concatenation. */
  lemma QuietParts(head: seq<Piece>, cols: seq<Piece>, from: seq<Piece>, vals: seq<Piece>, where: seq<Piece>, end: seq<Piece>)
    requires ParamValues(head) == [] && ParamValues(from) == [] && ParamValues(end) == []
    ensures ParamValues(head + cols + from + vals + where + end) ==
      ParamValues(cols) + ParamValues(vals) + ParamValues(where)
  {
    var x1 := head + cols;
    QuietLeft(head, cols);
    var x2 := x1 + from;
    QuietRight(x1, from);
    var x3 := x2 + vals;
    assert ParamValues(x3) == ParamValues(cols) + ParamValues(vals) by {
      ParamsAppend(x2, vals);
    }
    var x4 := x3 + where;
    assert ParamValues(x4) == ParamValues(cols) + ParamValues(vals) + ParamValues(where) by {
      ParamsAppend(x3, where);
    }
    QuietRight(x4, end);
  }

  /** The placeholders of the VALUES list are those of its slots. */
  lemma ValuesPartParams(b: Builder)
    requires b.CommandType == Insert && |b.Columns| <= |b.Values|
    ensures ParamValues(HelperValuesPart(b)) == ParamValues(HelperSlots(b.Values[..|b.Columns|]))
  {
    EnclosedParams(") VALUES (", HelperSlots(b.Values[..|b.Columns|]), ")");
  }

  /** The placeholders of the WHERE clause are those of the conditions. */
  lemma WhereParams(b: Builder)
    requires b.CommandType != Insert
    ensures ParamValues(HelperWhere(b)) == HelperFilterArgs(b.Filter, Select)
  {
    var cond := HelperConditions(b.Filter);
    HelperConditionsParams(b.Filter);
    SilentConditions(b.Filter);
    if |Render(cond)| > 0 {
      ParamsAppend([Lit(" WHERE ")], cond);
      LitOnlyNoParams([Lit(" WHERE ")]);
    }
  }

  /** With the column arguments collected from the database strings, the
      prepared statement's placeholders carry exactly its arguments, in
      order: column values, then filter values. For INSERT this rests on
      the registry: a statement that does not panic has an entry for every
      column, and no more. */
  lemma HelperArgsAligned(b: Builder)
    requires Registered(b.Columns, b.Values) && DataHelperOf(b, true).Prepared?
    ensures ParamValues(HelperPieces(b)) == DataHelperOf(b, true).args
  {
    PreparedParts(b, true);
    PiecesOfStatement(b);
    ColumnAndValueParams(b);
    WhereArgs(b);
  }

  /** The column list and the VALUES list together carry the column
      arguments collected from the database strings. */
  lemma ColumnAndValueParams(b: Builder)
    requires Registered(b.Columns, b.Values)
    requires b.CommandType == Insert ==> |b.Columns| <= |b.Values|
    ensures ParamValues(HelperColumnPart(b)) + ParamValues(HelperValuesPart(b)) ==
      HelperColumnArgs(b.Values, b.CommandType, true)
  {
    var cmd := b.CommandType;
    if cmd == Insert {
      ValuesWithinColumns(b.Columns, b.Values);
      assert b.Values[..|b.Columns|] == b.Values;
      ValuesPartParams(b);
      HelperSlotsParams(b.Values);
      HelperColumnsParams(b.Values, cmd);
    } else if cmd == Delete {
      NoDeleteColumnArgs(b.Values);
    } else {
      HelperColumnsParams(b.Values, cmd);
      if cmd == Select {
        NoSelectColumnArgs(b.Values);
      }
    }
  }

  /** The WHERE clause carries the filter arguments. */
  lemma WhereArgs(b: Builder)
    ensures ParamValues(HelperWhere(b)) == HelperFilterArgs(b.Filter, b.CommandType)
  {
    if b.CommandType == Insert {
      NoInsertFilterArgs(b.Filter);
    } else {
      WhereParams(b);
      SameFilterArgs(b.Filter, b.CommandType);
    }
  }

  /** A prepared statement renders the pieces and carries the column
      arguments, then the filter arguments. */
  lemma PreparedParts(b: Builder, fixed: bool)
    requires DataHelperOf(b, fixed).Prepared?
    ensures var r := DataHelperOf(b, fixed);
      r.query == Render(HelperPieces(b)) &&
      r.args == HelperColumnArgs(b.Values, b.CommandType, fixed) + HelperFilterArgs(b.Filter, b.CommandType)
  {
  }

  lemma {:induction false} NoInsertFilterArgs(fs: seq<QueryFilter>)
    ensures HelperFilterArgs(fs, Insert) == []
    decreases |fs|
  {
    if fs != [] {
      NoInsertFilterArgs(fs[..|fs| - 1]);
    }
  }

  lemma {:induction false} SameFilterArgs(fs: seq<QueryFilter>, cmd: CommandType)
    requires cmd != Insert
    ensures HelperFilterArgs(fs, cmd) == HelperFilterArgs(fs, Select)
    decreases |fs|
  {
    if fs != [] {
      SameFilterArgs(fs[..|fs| - 1], cmd);
    }
  }

  lemma {:induction false} NoDeleteColumnArgs(vs: seq<QueryValue>)
    ensures HelperColumnArgs(vs, Delete, true) == []
    decreases |vs|
  {
    if vs != [] {
      NoDeleteColumnArgs(vs[..|vs| - 1]);
    }
  }

  lemma {:induction false} NoSelectColumnArgs(vs: seq<QueryValue>)
    ensures HelperColumnArgs(vs, Select, true) == []
    decreases |vs|
  {
    if vs != [] {
      NoSelectColumnArgs(vs[..|vs| - 1]);
    }
  }

  /** An UPDATE of one column `c` set to the database string `x`. */
  function OneStringUpdate(): Builder
  {
    Builder("t", Update, [QueryColumn("c", 255)],
            [QueryValue("c", Plain(Str("x")), Nil, Nil, true)], [], [], [], "'", "\\", Rear, "")
  }

  /** Its prepared statement is `UPDATE t SET c = ?;` with one placeholder,
      carrying `x`. */
  lemma OneStringUpdatePieces()
    ensures var ps := HelperPieces(OneStringUpdate());
      Render(ps) == "UPDATE t SET c = ?;" && ParamValues(ps) == [Plain(Str("x"))]
  {
    OneStringUpdateShape();
    OneStringUpdateText();
    OneStringUpdateParams();
  }

  lemma OneStringUpdateText()
    ensures Render([Lit("UPDATE t SET "), Lit(""), Lit("c = "), Param("?", Plain(Str("x"))), Lit(";")]) == "UPDATE t SET c = ?;"
  {
    var x := Plain(Str("x"));
    var p0 := [Lit("UPDATE t SET ")];
    var p1 := p0 + [Lit("")];
    var p2 := p1 + [Lit("c = "), Param("?", x)];
    assert p2 + [Lit(";")] == [Lit("UPDATE t SET "), Lit(""), Lit("c = "), Param("?", x), Lit(";")];
    ShortRuns("UPDATE t SET ", "?", x);
    RenderSnoc(p0, "", "?", x);
    RenderSnoc(p1, "c = ", "?", x);
    RenderSnoc(p2, ";", "?", x);
    assert "UPDATE t SET " + "" + "c = " + "?" + ";" == "UPDATE t SET c = ?;";
  }

  lemma OneStringUpdateParams()
    ensures ParamValues([Lit("UPDATE t SET "), Lit(""), Lit("c = "), Param("?", Plain(Str("x"))), Lit(";")]) == [Plain(Str("x"))]
  {
    var x := Plain(Str("x"));
    var p0 := [Lit("UPDATE t SET ")];
    var p1 := p0 + [Lit("")];
    var p2 := p1 + [Lit("c = "), Param("?", x)];
    assert p2 + [Lit(";")] == [Lit("UPDATE t SET "), Lit(""), Lit("c = "), Param("?", x), Lit(";")];
    ShortRuns("UPDATE t SET ", "?", x);
    TextParams(p0, "");
    PlaceholderParams(p1, "c = ", "?", x);
    TextParams(p2, ";");
  }

  /** The pieces of the one-string UPDATE: its head, the empty separator,
      `c = ` with a placeholder for the string, and the `;`. */
  lemma OneStringUpdateShape()
    ensures HelperPieces(OneStringUpdate()) ==
      [Lit("UPDATE t SET "), Lit(""), Lit("c = "), Param("?", Plain(Str("x"))), Lit(";")]
  {
    var b := OneStringUpdate();
    var v := b.Values[0];
    assert [v][..0] == [];
    assert HelperColumn(v, Update) == [Lit("c = "), Param("?", v.Value)] by {
      assert "c" + " = " == "c = ";
    }
    var cols := [Lit(""), Lit("c = "), Param("?", v.Value)];
    assert HelperColumns([v], Update) == cols by {
      assert HelperColumns([v][..0], Update) == [];
      assert Sep(0, ", ") == "";
    }
    assert HelperWhere(b) == [] by {
      assert HelperConditions([]) == [];
      assert Render([]) == "";
    }
    assert Head(b) == "UPDATE t SET " by {
      assert "UPDATE " + "t" + " SET " == "UPDATE t SET ";
    }
    assert End(b) == ";";
    assert HelperPieces(b) == [Lit("UPDATE t SET ")] + cols + [] + [] + [] + [Lit(";")];
  }

  /** As the source collects them, the arguments miss the placeholders: an
      UPDATE of one database string writes `c = ?` and passes no argument;
      the corrected collection passes the string. */
  lemma HelperArgsInverted()
    ensures var b := OneStringUpdate();
      DataHelperOf(b, false) == Prepared("UPDATE t SET c = ?;", []) &&
      ParamValues(HelperPieces(b)) == [Plain(Str("x"))] &&
      DataHelperOf(b, true) == Prepared("UPDATE t SET c = ?;", [Plain(Str("x"))])
  {
    var b := OneStringUpdate();
    var v := b.Values[0];
    OneStringUpdatePieces();
    assert !UpdateFails(b.Values);
    assert b.Values[..0] == [];
    assert HelperColumnArgs(b.Values, Update, false) == [];
    assert HelperColumnArgs(b.Values, Update, true) == [v.Value];
    assert HelperFilterArgs([], Update) == [];
  }

  // ---------------------------------------------------------------------------
  // The prepared statement as text, item by item

  /** One more column item: its separator, then the name (SELECT, INSERT),
      or for UPDATE `name = ?` for a database string and the value's text
      inlined otherwise. */
  lemma HelperColumnsTextSnoc(vs: seq<QueryValue>, i: nat, cmd: CommandType)
    requires i < |vs| && cmd != Delete
    ensures Render(HelperColumns(vs[..i + 1], cmd)) == Render(HelperColumns(vs[..i], cmd)) + Sep(i, ", ") +
      (if cmd != Update then vs[i].ColumnName
       else if vs[i].IsDBString then vs[i].ColumnName + " = ?"
       else vs[i].ColumnName + " = " + GoString(vs[i].Value))
  {
    var v := vs[i];
    var a := HelperColumns(vs[..i], cmd);
    var x := Sep(i, ", ");
    assert HelperColumns(vs[..i + 1], cmd) == a + [Lit(x)] + HelperColumn(v, cmd) by {
      assert vs[..i + 1][..i] == vs[..i];
    }
    RenderSnoc(a, x, "?", v.Value);
    if cmd == Update && v.IsDBString {
      RenderSnoc(a + [Lit(x)], v.ColumnName + " = ", "?", v.Value);
      AppendAssoc(Render(a) + x, v.ColumnName + " = ", "?");
      AppendAssoc(v.ColumnName, " = ", "?");
      assert " = " + "?" == " = ?";
    } else {
      var t := HelperColumn(v, cmd)[0].text;
      assert HelperColumn(v, cmd) == [Lit(t)];
      RenderSnoc(a + [Lit(x)], t, "?", v.Value);
    }
  }

  /** One more VALUES slot: its `,` separator, then `?` for a database
      string and the value's text otherwise. */
  lemma HelperSlotsTextSnoc(vs: seq<QueryValue>, i: nat)
    requires i < |vs|
    ensures Render(HelperSlots(vs[..i + 1])) == Render(HelperSlots(vs[..i])) + Sep(i, ",") +
      (if vs[i].IsDBString then "?" else GoString(vs[i].Value))
  {
    var v := vs[i];
    var a := HelperSlots(vs[..i]);
    var x := Sep(i, ",");
    assert HelperSlots(vs[..i + 1]) == a + [Lit(x)] + HelperSlot(v) by {
      assert vs[..i + 1][..i] == vs[..i];
    }
    if v.IsDBString {
      assert a + [Lit(x)] + HelperSlot(v) == a + [Lit(x), Param("?", v.Value)];
      RenderSnoc(a, x, "?", v.Value);
    } else {
      RenderSnoc(a, x, "?", v.Value);
      RenderSnoc(a + [Lit(x)], GoString(v.Value), "?", v.Value);
    }
  }

  /** The VALUES slots written one string per slot: one more slot string
      extends their concatenation as one more slot extends the pieces. */
  lemma SlotsConcatSnoc(qs: seq<string>, slot: string, vs: seq<QueryValue>, i: nat)
    requires i < |vs| && Concat(qs) == Render(HelperSlots(vs[..i]))
    requires slot == Sep(i, ",") + (if vs[i].IsDBString then "?" else GoString(vs[i].Value))
    ensures Concat(qs + [slot]) == Render(HelperSlots(vs[..i + 1]))
  {
    HelperSlotsTextSnoc(vs, i);
    ConcatSnoc(qs, slot);
    AppendAssoc(Concat(qs), Sep(i, ","), if vs[i].IsDBString then "?" else GoString(vs[i].Value));
  }

  /** All the slots, joined with nothing between them. */
  lemma SlotsJoined(qs: seq<string>, vs: seq<QueryValue>)
    requires |qs| <= |vs| && Concat(qs[..|qs|]) == Render(HelperSlots(vs[..|qs|]))
    ensures Join(qs, "") == Render(HelperSlots(vs[..|qs|]))
  {
    assert qs[..|qs|] == qs;
    JoinEmpty(qs);
  }

  /** One more condition: its ` AND ` separator, then `expr = ?` when it
      has a value and the bare expression otherwise. */
  lemma HelperConditionsTextSnoc(fs: seq<QueryFilter>, i: nat)
    requires i < |fs|
    ensures Render(HelperConditions(fs[..i + 1])) == Render(HelperConditions(fs[..i])) + Sep(i, " AND ") +
      (if fs[i].Value != Nil then fs[i].ColumnNameOrExpression + " = ?" else fs[i].ColumnNameOrExpression)
  {
    var c := fs[i];
    var a := HelperConditions(fs[..i]);
    var x := Sep(i, " AND ");
    assert HelperConditions(fs[..i + 1]) == a + [Lit(x)] + HelperCondition(c) by {
      assert fs[..i + 1][..i] == fs[..i];
    }
    RenderSnoc(a, x, "?", c.Value);
    if c.Value != Nil {
      RenderSnoc(a + [Lit(x)], c.ColumnNameOrExpression + " = ", "?", c.Value);
      AppendAssoc(Render(a) + x, c.ColumnNameOrExpression + " = ", "?");
      AppendAssoc(c.ColumnNameOrExpression, " = ", "?");
      assert " = " + "?" == " = ?";
    } else {
      RenderSnoc(a + [Lit(x)], c.ColumnNameOrExpression, "?", c.Value);
    }
  }

  /** Whether one of the first `n` entries fails the UPDATE type assertion,
      counted entry by entry as the column loop meets them. */
  predicate FailsBefore(vs: seq<QueryValue>, n: nat)
    requires n <= |vs|
  {
    n > 0 && (FailsBefore(vs, n - 1) || AssertionFails(vs[n - 1]))
  }

  lemma {:induction false} FailsBeforeAll(vs: seq<QueryValue>, n: nat)
    requires n <= |vs|
    ensures FailsBefore(vs, n) <==> exists j :: 0 <= j < n && AssertionFails(vs[j])
  {
    if n > 0 {
      FailsBeforeAll(vs, n - 1);
    }
  }

  /** Once the VALUES loop has panicked, it has panicked for good. */
  lemma {:induction false} InsertFailureSticks(vs: seq<QueryValue>, k: nat, m: nat)
    requires k <= m && InsertFailure(vs, k).Some?
    ensures InsertFailure(vs, m) == InsertFailure(vs, k)
    decreases m
  {
    if k < m {
      InsertFailureSticks(vs, k, m - 1);
    }
  }

  /** The text of the VALUES list. */
  lemma ValuesPartText(b: Builder)
    requires b.CommandType == Insert && |b.Columns| <= |b.Values|
    ensures Render(HelperValuesPart(b)) == ") VALUES (" + Render(HelperSlots(b.Values[..|b.Columns|])) + ")"
  {
    var mid := HelperSlots(b.Values[..|b.Columns|]);
    ShortRuns(") VALUES (", "?", Nil);
    RenderAppend([Lit(") VALUES (")], mid);
    RenderSnoc([Lit(") VALUES (")] + mid, ")", "?", Nil);
  }

  /** The text of the WHERE clause: the conditions after ` WHERE ` when
      they have text; nothing for INSERT. */
  lemma WhereText(b: Builder)
    ensures Render(HelperWhere(b)) ==
      if b.CommandType == Insert then "" else Where(Render(HelperConditions(b.Filter)))
  {
    if b.CommandType != Insert {
      var cond := HelperConditions(b.Filter);
      ShortRuns(" WHERE ", "?", Nil);
      RenderAppend([Lit(" WHERE ")], cond);
    }
  }

  /** The statement's text is its parts' text, in order. */
  lemma StatementText(b: Builder)
    ensures Render(HelperPieces(b)) ==
      Head(b) + Render(HelperColumnPart(b)) + (if b.CommandType == Select then " FROM " + b.TableName else "") +
      Render(HelperValuesPart(b)) + Render(HelperWhere(b)) + End(b)
  {
    var head, cols, from, vals, where, end :=
      [Lit(Head(b))], HelperColumnPart(b), HelperFromPart(b), HelperValuesPart(b), HelperWhere(b), [Lit(End(b))];
    assert Render(head) == Head(b) && Render(end) == End(b) by {
      ShortRuns(Head(b), "?", Nil);
      ShortRuns(End(b), "?", Nil);
    }
    assert Render(from) == if b.CommandType == Select then " FROM " + b.TableName else "" by {
      ShortRuns(" FROM " + b.TableName, "?", Nil);
    }
    RenderParts(head, cols, from, vals, where, end);
  }

  /** Rendering distributes over a concatenation of six parts. */
  lemma RenderParts(p1: seq<Piece>, p2: seq<Piece>, p3: seq<Piece>, p4: seq<Piece>, p5: seq<Piece>, p6: seq<Piece>)
    ensures Render(p1 + p2 + p3 + p4 + p5 + p6) ==
      Render(p1) + Render(p2) + Render(p3) + Render(p4) + Render(p5) + Render(p6)
  {
    assert Render(p1 + p2) == Render(p1) + Render(p2) by {
      RenderAppend(p1, p2);
    }
    assert Render(p1 + p2 + p3) == Render(p1) + Render(p2) + Render(p3) by {
      RenderAppend(p1 + p2, p3);
    }
    assert Render(p1 + p2 + p3 + p4) == Render(p1) + Render(p2) + Render(p3) + Render(p4) by {
      RenderAppend(p1 + p2 + p3, p4);
    }
    assert Render(p1 + p2 + p3 + p4 + p5) == Render(p1) + Render(p2) + Render(p3) + Render(p4) + Render(p5) by {
      RenderAppend(p1 + p2 + p3 + p4, p5);
    }
    RenderAppend(p1 + p2 + p3 + p4 + p5, p6);
  }
}
