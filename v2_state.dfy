/** The v2 builder's state and its column/value registry.

  `columns` and `values` are two parallel lists: every column added through
  the public operations gets a value entry at the same position, and names
  are compared case-insensitively so that a name is registered once. */
module V2State {
  import opened Values
  import opened Text
  import opened Dialect

  datatype QueryColumn = QueryColumn(Name: string, Length: int)

  /** A value entry. `skip` and `forceNull` are written by `Build`. */
  datatype QueryValue = QueryValue(
    column: string,
    value: Input,
    defValue: Input,
    matchToNull: Input,
    sqlstring: bool,
    skip: bool,
    forceNull: bool)

  /** `containsValue` marks a bare filter expression (`AddFilterExp`). */
  datatype QueryFilter = QueryFilter(expression: string, value: Input, containsValue: bool)

  function Names(columns: seq<QueryColumn>): (r: seq<string>)
    ensures |r| == |columns| && forall i :: 0 <= i < |columns| ==> r[i] == columns[i].Name
  {
    seq(|columns|, i requires 0 <= i < |columns| => columns[i].Name)
  }

  function ValueNames(values: seq<QueryValue>): (r: seq<string>)
    ensures |r| == |values| && forall i :: 0 <= i < |values| ==> r[i] == values[i].column
  {
    seq(|values|, i requires 0 <= i < |values| => values[i].column)
  }

  /** The position of the first name NOT equal to `name` up to case, or -1. */
  function IndexOfOtherName(names: seq<string>, name: string): (r: int)
    ensures -1 <= r < |names|
    ensures r >= 0 ==> !EqualFold(name, names[r])
    ensures forall j :: 0 <= j < |names| && (r < 0 || j < r) ==> EqualFold(name, names[j])
  {
    if names == [] then -1
    else if !EqualFold(name, names[0]) then 0
    else
      var k := IndexOfOtherName(names[1..], name);
      if k < 0 then -1 else k + 1
  }

  /** The registry invariant: one value entry per column, at the same
      position and under the same name, and no two names equal up to case. */
  ghost predicate Lockstep(columns: seq<QueryColumn>, values: seq<QueryValue>)
  {
    |columns| == |values| &&
    (forall i :: 0 <= i < |values| ==> values[i].column == columns[i].Name) &&
    (forall i, j :: 0 <= i < j < |columns| ==> !EqualFold(columns[i].Name, columns[j].Name))
  }

  /** `addColumn`: the index of the column named `name` (up to case),
      appending a new column when there is none. */
  function AddColumn(columns: seq<QueryColumn>, name: string, length: int): (r: (seq<QueryColumn>, nat))
    ensures r.1 < |r.0| && EqualFold(name, r.0[r.1].Name)
    ensures r.1 < |columns| ==> r.0 == columns
    ensures r.1 == |columns| ==> r.0 == columns + [QueryColumn(name, length)]
    ensures r.1 == |columns| <==> forall j :: 0 <= j < |columns| ==> !EqualFold(name, columns[j].Name)
  {
    var k := IndexOfName(Names(columns), name);
    if k >= 0 then (columns, k) else (columns + [QueryColumn(name, length)], |columns|)
  }

  /** The entry written by `setColumnValue` for an existing entry `v`. */
  function Overwrite(v: QueryValue, value: Input, sqlString: bool, defValue: Input, matchToNull: Input): QueryValue
  {
    v.(sqlstring := sqlString, defValue := defValue, matchToNull := matchToNull, value := value)
  }

  /** `setColumnValue`: the value entry named like column `index` (up to
      case) takes the new settings, or a new entry is appended. */
  function SetColumnValue(columns: seq<QueryColumn>, values: seq<QueryValue>, index: nat,
                          value: Input, sqlString: bool, defValue: Input, matchToNull: Input): seq<QueryValue>
    requires index < |columns|
  {
    var k := IndexOfName(ValueNames(values), columns[index].Name);
    if k >= 0 then values[k := Overwrite(values[k], value, sqlString, defValue, matchToNull)]
    else values + [QueryValue(columns[index].Name, value, defValue, matchToNull, sqlString, false, false)]
  }

  /** In a registry in lockstep, the first entry whose name matches a
      column's name is that column's own entry: an earlier match would
      repeat a name up to case. */
  lemma FirstMatchIsOwn(columns: seq<QueryColumn>, values: seq<QueryValue>, index: nat)
    requires Lockstep(columns, values) && index < |columns|
    ensures IndexOfName(ValueNames(values), columns[index].Name) == index
  {
    var names := ValueNames(values);
    var name := columns[index].Name;
    var k := IndexOfName(names, name);
    assert EqualFold(name, names[index]);
    assert 0 <= k <= index;
    assert EqualFold(columns[k].Name, name);
  }

  /** Registering a column with a value (`AddColumn`, `AddColumnFixed`,
      `AddValue`) keeps the registry in lockstep. The entry at the returned
      index carries exactly the new settings, every other entry is unchanged,
      and re-adding a name reuses its slot. */
  lemma Register(columns: seq<QueryColumn>, values: seq<QueryValue>, name: string, length: int,
                 value: Input, sqlString: bool, defValue: Input, matchToNull: Input)
    requires Lockstep(columns, values)
    ensures var (cols, idx) := AddColumn(columns, name, length);
      var vals := SetColumnValue(cols, values, idx, value, sqlString, defValue, matchToNull);
      Lockstep(cols, vals) &&
      vals[idx].value == value && vals[idx].sqlstring == sqlString &&
      vals[idx].defValue == defValue && vals[idx].matchToNull == matchToNull &&
      (idx < |columns| ==> cols == columns && |vals| == |values|) &&
      (idx == |columns| ==> |vals| == |values| + 1) &&
      (forall j :: 0 <= j < |values| && j != idx ==> vals[j] == values[j])
  {
    var (cols, idx) := AddColumn(columns, name, length);
    var k := IndexOfName(ValueNames(values), cols[idx].Name);
    if idx < |columns| {
      FirstMatchIsOwn(columns, values, idx);
    } else {
      assert k == -1 by {
        forall j | 0 <= j < |values|
          ensures !EqualFold(cols[idx].Name, values[j].column)
        {
          assert !EqualFold(name, columns[j].Name);
        }
      }
    }
  }

  /** `SetColumnValue` as the source writes it: the loop skips the entries
      whose name matches and updates the first entry whose name does NOT
      match, with sqlstring on and no default or match-to-null value. */
  function SetColumnValueAsWritten(cmd: CommandType, columns: seq<QueryColumn>, values: seq<QueryValue>,
                                   name: string, value: Input): seq<QueryValue>
    requires |values| <= |columns|
  {
    if cmd == Delete then values
    else
      var i := IndexOfOtherName(ValueNames(values), name);
      if i < 0 then values else SetColumnValue(columns, values, i, value, true, Nil, Nil)
  }

  /** The evidently intended `SetColumnValue`: update the entry named `name`. */
  function SetColumnValueFixed(cmd: CommandType, columns: seq<QueryColumn>, values: seq<QueryValue>,
                               name: string, value: Input): seq<QueryValue>
  {
    if cmd == Delete then values
    else
      var i := IndexOfName(ValueNames(values), name);
      if i < 0 then values else values[i := Overwrite(values[i], value, true, Nil, Nil)]
  }

  /** The source's `SetColumnValue` changes the wrong entry: asked to set
      column `a`, it overwrites column `b` and leaves `a` alone. */
  lemma SetColumnValueHitsOtherEntry()
    ensures var cols := [QueryColumn("a", 255), QueryColumn("b", 255)];
      var vals := [QueryValue("a", Plain(Integer(Int, 1)), Nil, Nil, true, false, false),
                   QueryValue("b", Plain(Integer(Int, 2)), Nil, Nil, true, false, false)];
      var r := SetColumnValueAsWritten(Update, cols, vals, "a", Plain(Integer(Int, 9)));
      r[0] == vals[0] && r[1].value == Plain(Integer(Int, 9))
  {
    var cols := [QueryColumn("a", 255), QueryColumn("b", 255)];
    var vals := [QueryValue("a", Plain(Integer(Int, 1)), Nil, Nil, true, false, false),
                 QueryValue("b", Plain(Integer(Int, 2)), Nil, Nil, true, false, false)];
    assert EqualFold("a", vals[0].column);
    assert !EqualFold("a", vals[1].column) by {
      assert ToLower("a")[0] == 'a' && ToLower("b")[0] == 'b';
    }
    assert IndexOfOtherName(ValueNames(vals), "a") == 1;
    assert IndexOfName(ValueNames(vals), cols[1].Name) == 1 by {
      assert !EqualFold("b", vals[0].column) by {
        assert ToLower("a")[0] == 'a' && ToLower("b")[0] == 'b';
      }
    }
  }

  /** The corrected `SetColumnValue` updates exactly the entry with the given
      name (up to case), and only outside DELETE; the registry stays in
      lockstep. */
  lemma SetColumnValueFixedUpdatesNamed(cmd: CommandType, columns: seq<QueryColumn>, values: seq<QueryValue>,
                                        name: string, value: Input)
    requires Lockstep(columns, values)
    ensures var r := SetColumnValueFixed(cmd, columns, values, name, value);
      Lockstep(columns, r) && |r| == |values| &&
      forall j :: 0 <= j < |values| ==>
        r[j] == (if cmd != Delete && EqualFold(name, values[j].column)
                 then Overwrite(values[j], value, true, Nil, Nil) else values[j])
  {
    var r := SetColumnValueFixed(cmd, columns, values, name, value);
    if cmd != Delete {
      var i := IndexOfName(ValueNames(values), name);
      forall j | 0 <= j < |values| && j != i && i >= 0
        ensures !EqualFold(name, values[j].column)
      {
        if EqualFold(name, values[j].column) {
          assert EqualFold(columns[i].Name, columns[j].Name);
        }
      }
    }
  }

  /** In a registry in lockstep, `setColumnValue` for column `index` finds
      the entry at the same position and overwrites it in place. */
  lemma SetColumnValueInPlace(columns: seq<QueryColumn>, values: seq<QueryValue>, index: nat,
                              value: Input, sqlString: bool, defValue: Input, matchToNull: Input)
    requires Lockstep(columns, values) && index < |columns|
    ensures SetColumnValue(columns, values, index, value, sqlString, defValue, matchToNull) ==
      values[index := Overwrite(values[index], value, sqlString, defValue, matchToNull)]
  {
    FirstMatchIsOwn(columns, values, index);
  }

  /** The source's `SetColumnValue`, wrong entry and all, keeps the registry
      in lockstep and never adds an entry. */
  lemma SetColumnValueAsWrittenKeepsLockstep(cmd: CommandType, columns: seq<QueryColumn>, values: seq<QueryValue>,
                                             name: string, value: Input)
    requires Lockstep(columns, values)
    ensures var r := SetColumnValueAsWritten(cmd, columns, values, name, value);
      Lockstep(columns, r) && |r| == |values| && ValueNames(r) == ValueNames(values)
  {
    if cmd != Delete {
      var i := IndexOfOtherName(ValueNames(values), name);
      if i >= 0 {
        SetColumnValueInPlace(columns, values, i, value, true, Nil, Nil);
      }
    }
  }
}
