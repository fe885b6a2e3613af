/** The v2 builder as an object: the registry operations append to and
    overwrite its lists in place, and `Build` writes the statement in loops,
    records each entry's resolution in the entry, and stores the parameter
    counter back. Every method is proved against the functions of `V2State`
    and `V2Build`, whose properties are proved in `V2Properties`. */
module V2QueryBuilder {
  import opened Values
  import opened Text
  import opened Normalize
  import opened Dialect
  import opened Emission
  import opened Interpolation
  import opened V2State
  import opened V2Build
  import opened V2Properties

  class QueryBuilder {
    var Source: string
    var CommandType: CommandType
    var Filter: seq<QueryFilter>
    var ResultLimit: string
    var ParameterOffset: int
    var FilterFunc: Option<FilterCallback>
    var skpNilWrCol: bool
    var dbEnConst: EngineConstants
    var intTbls: bool
    var order: seq<QuerySort>
    var group: seq<string>
    var columns: seq<QueryColumn>
    var values: seq<QueryValue>
    var distinct: bool
    var schema: string
    var referenceMode: bool
    var referenceModePrefix: string

    /** The state, without the callback. */
    function Snapshot(): Builder
      reads this
    {
      Builder(Source, CommandType, Filter, ResultLimit, ParameterOffset, skpNilWrCol, dbEnConst, intTbls,
              order, group, columns, values, distinct, schema, referenceMode, referenceModePrefix)
    }

    /** The registry is in lockstep. */
    ghost predicate Valid()
      reads this
    {
      Lockstep(columns, values)
    }

    /** A builder with the given settings and nothing registered yet. */
    constructor (source: string, cmd: CommandType, ec: EngineConstants, skipNil: bool, interpolate: bool,
                 distinct: bool, limit: string, schema: string, referenceMode: bool, prefix: string,
                 filterFunc: Option<FilterCallback>)
      ensures Valid() && FilterFunc == filterFunc
      ensures Snapshot() == Builder(source, cmd, [], limit, 0, skipNil, ec, interpolate, [], [], [], [],
                                    distinct, schema, referenceMode, prefix)
    {
      Source := source;
      CommandType := cmd;
      Filter := [];
      ResultLimit := limit;
      ParameterOffset := 0;
      FilterFunc := filterFunc;
      skpNilWrCol := skipNil;
      dbEnConst := ec;
      intTbls := interpolate;
      order := [];
      group := [];
      columns := [];
      values := [];
      this.distinct := distinct;
      this.schema := schema;
      this.referenceMode := referenceMode;
      referenceModePrefix := prefix;
    }

    // -------------------------------------------------------------------------
    // The registry

    /** `addColumn`: the index of the column with this name up to case; a new
        column is appended when there is none. */
    method addColumn(name: string, length: int) returns (index: nat)
      modifies this`columns
      ensures (columns, index) == V2State.AddColumn(old(columns), name, length)
      ensures Snapshot() == old(Snapshot()).(columns := columns) && FilterFunc == old(FilterFunc)
    {
      var i := 0;
      while i < |columns| && !EqualFold(name, columns[i].Name)
        invariant 0 <= i <= |columns|
        invariant forall j :: 0 <= j < i ==> !EqualFold(name, columns[j].Name)
      {
        i := i + 1;
      }
      if i < |columns| {
        return i;
      }
      columns := columns + [QueryColumn(name, length)];
      index := |columns| - 1;
    }

    /** `setColumnValue`: the entry named like column `index` takes the new
        settings, or a new entry is appended. */
    method setColumnValue(index: nat, value: Input, sqlString: bool, defValue: Input, matchToNull: Input)
      requires index < |columns|
      modifies this`values
      ensures values == V2State.SetColumnValue(old(columns), old(values), index, value, sqlString, defValue, matchToNull)
      ensures Snapshot() == old(Snapshot()).(values := values) && FilterFunc == old(FilterFunc)
    {
      var name := columns[index].Name;
      var i := 0;
      while i < |values| && !EqualFold(name, values[i].column)
        invariant 0 <= i <= |values|
        invariant forall j :: 0 <= j < i ==> !EqualFold(name, values[j].column)
      {
        i := i + 1;
      }
      if i < |values| {
        values := values[i := values[i].(sqlstring := sqlString, defValue := defValue, matchToNull := matchToNull, value := value)];
      } else {
        values := values + [QueryValue(name, value, defValue, matchToNull, sqlString, false, false)];
      }
    }

    /** `AddColumn`: a column of length 255 with a nil SQL-string value;
        nothing for DELETE. */
    method AddColumn(name: string)
      requires Valid()
      modifies this`columns, this`values
      ensures Valid()
      ensures old(CommandType) == Delete ==> columns == old(columns) && values == old(values)
      ensures old(CommandType) != Delete ==>
        var (cols, idx) := V2State.AddColumn(old(columns), name, 255);
        columns == cols && values == V2State.SetColumnValue(cols, old(values), idx, Nil, true, Nil, Nil)
      ensures Snapshot() == old(Snapshot()).(columns := columns, values := values) && FilterFunc == old(FilterFunc)
    {
      if CommandType == Delete {
        return;
      }
      var idx := addColumn(name, 255);
      setColumnValue(idx, Nil, true, Nil, Nil);
      Register(old(columns), old(values), name, 255, Nil, true, Nil, Nil);
    }

    /** `AddColumnFixed`: as `AddColumn`, with the given length. */
    method AddColumnFixed(name: string, length: int)
      requires Valid()
      modifies this`columns, this`values
      ensures Valid()
      ensures old(CommandType) == Delete ==> columns == old(columns) && values == old(values)
      ensures old(CommandType) != Delete ==>
        var (cols, idx) := V2State.AddColumn(old(columns), name, length);
        columns == cols && values == V2State.SetColumnValue(cols, old(values), idx, Nil, true, Nil, Nil)
      ensures Snapshot() == old(Snapshot()).(columns := columns, values := values) && FilterFunc == old(FilterFunc)
    {
      if CommandType == Delete {
        return;
      }
      var idx := addColumn(name, length);
      setColumnValue(idx, Nil, true, Nil, Nil);
      Register(old(columns), old(values), name, length, Nil, true, Nil, Nil);
    }

    /** `AddValue`: a column of length 8000 with the given value and value
        options (SQL string, default, match-to-null), for every command. */
    method AddValue(name: string, value: Input, sqlString: bool, defValue: Input, matchToNull: Input)
      requires Valid()
      modifies this`columns, this`values
      ensures Valid()
      ensures var (cols, idx) := V2State.AddColumn(old(columns), name, 8000);
        columns == cols && values == V2State.SetColumnValue(cols, old(values), idx, value, sqlString, defValue, matchToNull)
      ensures Snapshot() == old(Snapshot()).(columns := columns, values := values) && FilterFunc == old(FilterFunc)
    {
      var idx := addColumn(name, 8000);
      setColumnValue(idx, value, sqlString, defValue, matchToNull);
      Register(old(columns), old(values), name, 8000, value, sqlString, defValue, matchToNull);
    }

    /** `SetColumnValue` as the source writes it: the first entry whose name
        does NOT match is overwritten; nothing for DELETE. */
    method SetColumnValue(name: string, value: Input)
      requires Valid()
      modifies this`values
      ensures Valid()
      ensures values == SetColumnValueAsWritten(old(CommandType), old(columns), old(values), name, value)
      ensures Snapshot() == old(Snapshot()).(values := values) && FilterFunc == old(FilterFunc)
    {
      SetColumnValueAsWrittenKeepsLockstep(CommandType, columns, values, name, value);
      if CommandType == Delete {
        return;
      }
      var i := 0;
      while i < |values| && EqualFold(name, values[i].column)
        invariant 0 <= i <= |values|
        invariant forall j :: 0 <= j < i ==> EqualFold(name, values[j].column)
      {
        i := i + 1;
      }
      if i < |values| {
        setColumnValue(i, value, true, Nil, Nil);
      }
    }

    /** `AddFilter`: a condition on a column with a value. */
    method AddFilter(column: string, value: Input)
      modifies this`Filter
      ensures Filter == old(Filter) + [QueryFilter(column, value, false)]
      ensures Snapshot() == old(Snapshot()).(Filter := Filter) && FilterFunc == old(FilterFunc)
    {
      Filter := Filter + [QueryFilter(column, value, false)];
    }

    /** `AddFilterExp`: a condition written as it is, with no value. */
    method AddFilterExp(expr: string)
      modifies this`Filter
      ensures Filter == old(Filter) + [QueryFilter(expr, Nil, true)]
      ensures Snapshot() == old(Snapshot()).(Filter := Filter) && FilterFunc == old(FilterFunc)
    {
      Filter := Filter + [QueryFilter(expr, Nil, true)];
    }

    method AddOrder(column: string, sort: Sort)
      modifies this`order
      ensures order == old(order) + [QuerySort(column, sort)]
      ensures Snapshot() == old(Snapshot()).(order := order) && FilterFunc == old(FilterFunc)
    {
      order := order + [QuerySort(column, sort)];
    }

    method AddGroup(g: string)
      modifies this`group
      ensures group == old(group) + [g]
      ensures Snapshot() == old(Snapshot()).(group := group) && FilterFunc == old(FilterFunc)
    {
      group := group + [g];
    }

    // -------------------------------------------------------------------------
    // Build, stage by stage

    /** Every stored value, default, match-to-null value and filter value is
        replaced by its normal form. */
    method NormalizeInPlace()
      modifies this`values, this`Filter
      ensures values == NormalizeValues(old(values)) && Filter == NormalizeFilters(old(Filter))
    {
      NormalizeValuesInPlace();
      NormalizeFiltersInPlace();
    }

    /** The value loop of `NormalizeInPlace`. */
    method NormalizeValuesInPlace()
      modifies this`values
      ensures values == NormalizeValues(old(values))
    {
      ghost var vs := values;
      var i := 0;
      while i < |values|
        invariant 0 <= i <= |values| == |vs|
        invariant forall j :: 0 <= j < i ==> values[j] == NormalizeValue(vs[j])
        invariant forall j :: i <= j < |values| ==> values[j] == vs[j]
      {
        var v := values[i];
        values := values[i := v.(value := RealValue(v.value), defValue := RealValue(v.defValue),
                                 matchToNull := RealValue(v.matchToNull))];
        i := i + 1;
      }
      assert values == NormalizeValues(vs);
    }

    /** The filter loop of `NormalizeInPlace`. */
    method NormalizeFiltersInPlace()
      modifies this`Filter
      ensures Filter == NormalizeFilters(old(Filter))
    {
      ghost var fs := Filter;
      var i := 0;
      while i < |Filter|
        invariant 0 <= i <= |Filter| == |fs|
        invariant forall j :: 0 <= j < i ==> Filter[j] == NormalizeFilter(fs[j])
        invariant forall j :: i <= j < |Filter| ==> Filter[j] == fs[j]
      {
        Filter := Filter[i := Filter[i].(value := RealValue(Filter[i].value))];
        i := i + 1;
      }
      assert Filter == NormalizeFilters(fs);
    }

    /** One entry's resolution in the column loop: a nil value falls back to
        a non-nil default; a non-null value equal to the match-to-null value
        is forced to null and made an SQL string; a null entry is skipped
        when nil columns are skipped. */
    static method ResolveEntry(v: QueryValue, skpNil: bool) returns (eff: Input, isnl: bool, stored: QueryValue)
      ensures Resolve(v) == Resolution(eff, isnl, stored.forceNull)
      ensures stored == Store(v, skpNil, false)
    {
      var forceNull := false;
      var sqlstring := v.sqlstring;
      isnl := IsNil(v.value);
      eff := v.value;
      if isnl && !IsNil(v.defValue) {
        eff := v.defValue;
        isnl := false;
      }
      if !isnl && !IsNil(v.matchToNull) && GoEqual(v.matchToNull, eff) {
        isnl := true;
        forceNull := true;
        sqlstring := true;
      }
      stored := v.(forceNull := forceNull, sqlstring := sqlstring, skip := skpNil && isnl);
    }

    /** The text the column loop writes for one entry after resolving it:
        SELECT writes the name; INSERT and UPDATE write nothing for an entry
        left out, otherwise the name, and UPDATE adds the assignment; DELETE
        writes nothing. */
    static method ColumnItem(ghost a: Acc, v: QueryValue, skpNil: bool, cmd: CommandType, ec: EngineConstants,
                             cma: string, cnt: int, eff: Input, isnl: bool, stored: QueryValue)
      returns (item: string, paramcnt: int, written: bool)
      requires cma == Sep(a.n, ", ") && cnt == a.cnt
      requires Resolve(v) == Resolution(eff, isnl, stored.forceNull) && stored == Store(v, skpNil, false)
      ensures var next := ColumnStep(a, v, skpNil, cmd, ec);
        Render(next.pieces) == Render(a.pieces) + item && paramcnt == next.cnt &&
        next.n == a.n + (if written then 1 else 0)
    {
      item, paramcnt, written := "", cnt, false;
      match cmd {
      case Select =>
        item, written := cma + v.column, true;
        RenderSnoc(a.pieces, item, "", Nil);
      case Insert =>
        if !(stored.skip && !stored.forceNull) {
          item, written := cma + v.column, true;
          RenderSnoc(a.pieces, item, "", Nil);
        }
      case Update =>
        if !(stored.skip && !stored.forceNull) {
          written := true;
          item, paramcnt := UpdateItem(a, v, ec, cma, cnt, eff, isnl);
        }
      case Delete =>
      }
    }

    /** The assignment an UPDATE writes for an entry it keeps: `= NULL` for a
        null entry, `= ` and a placeholder for an SQL string, otherwise `= `
        and the value's text. */
    static method UpdateItem(ghost a: Acc, v: QueryValue, ec: EngineConstants, cma: string, cnt: int,
                             eff: Input, isnl: bool)
      returns (item: string, paramcnt: int)
      requires cma == Sep(a.n, ", ") && cnt == a.cnt
      requires Resolve(v).effective == eff && Resolve(v).isnl == isnl
      ensures var next := ColumnStep(a, v, false, Update, ec);
        Render(next.pieces) == Render(a.pieces) + item && paramcnt == next.cnt
    {
      paramcnt := cnt;
      if isnl {
        item := cma + v.column + " = NULL";
        RenderSnoc(a.pieces, item, "", Nil);
      } else if v.sqlstring {
        var pchar;
        pchar, paramcnt := NextPlaceholder(ec, paramcnt);
        RenderSnoc(a.pieces, cma + v.column + " = ", pchar, eff);
        item := cma + v.column + " = " + pchar;
      } else {
        item := cma + v.column + " = " + UpdateLiteral(eff);
        RenderSnoc(a.pieces, item, "", Nil);
      }
    }

    /** One pass of the column loop: resolve the entry, then write it. */
    static method ColumnEntry(ghost a: Acc, v: QueryValue, skpNil: bool, cmd: CommandType, ec: EngineConstants,
                              cma: string, cnt: int)
      returns (stored: QueryValue, item: string, paramcnt: int, written: bool)
      requires cma == Sep(a.n, ", ") && cnt == a.cnt
      ensures stored == Store(v, skpNil, false)
      ensures var next := ColumnStep(a, v, skpNil, cmd, ec);
        Render(next.pieces) == Render(a.pieces) + item && paramcnt == next.cnt &&
        next.n == a.n + (if written then 1 else 0)
    {
      var eff, isnl;
      eff, isnl, stored := ResolveEntry(v, skpNil);
      item, paramcnt, written := ColumnItem(a, v, skpNil, cmd, ec, cma, cnt, eff, isnl, stored);
    }

    /** The placeholder every loop writes: the parameter character,
        followed by the advanced counter when parameters are numbered. */
    static method NextPlaceholder(ec: EngineConstants, cnt: int) returns (pchar: string, next: int)
      ensures next == Next(ec, cnt) && pchar == Placeholder(ec, next)
    {
      pchar, next := ec.ParameterChar, cnt;
      if ec.ParameterInSequence {
        next := next + 1;
        pchar := pchar + IntToString(next);
      }
    }

    /** One pass of the column loop on entry `idx`: resolves it, records the
        resolution in it, and writes it after the separator. */
    method ColumnPass(ghost vs: seq<QueryValue>, idx: nat, skp: bool, cmd: CommandType, ec: EngineConstants,
                      start: int, cma: string, text: string, cnt: int, columncnt: nat)
      returns (cma': string, text': string, paramcnt: int, columncnt': nat)
      requires idx < |vs| == |values| && values == PartlyResolved(vs, idx, skp, false)
      requires var a := ColumnFold(vs[..idx], skp, cmd, ec, start);
        text == Render(a.pieces) && cnt == a.cnt && columncnt == a.n && cma == Sep(columncnt, ", ")
      modifies this`values
      ensures values == PartlyResolved(vs, idx + 1, skp, false)
      ensures var a := ColumnFold(vs[..idx + 1], skp, cmd, ec, start);
        text' == Render(a.pieces) && paramcnt == a.cnt && columncnt' == a.n && cma' == Sep(columncnt', ", ")
    {
      ghost var acc := ColumnFold(vs[..idx], skp, cmd, ec, start);
      assert ColumnFold(vs[..idx + 1], skp, cmd, ec, start) == ColumnStep(acc, vs[idx], skp, cmd, ec) by {
        assert vs[..idx + 1][..idx] == vs[..idx];
      }
      PartlyResolvedStep(vs, idx, skp, false);
      var stored, item, written;
      stored, item, paramcnt, written := ColumnEntry(acc, values[idx], skp, cmd, ec, cma, cnt);
      values := values[idx := stored];
      text' := text + item;
      cma', columncnt' := cma, columncnt;
      if written {
        cma' := ", ";
        columncnt' := columncnt + 1;
      }
    }

    /** The column loop: resolves each entry, records `forceNull`, `sqlstring`
        and `skip` in it, and writes the column list of the command. */
    method WriteColumns() returns (text: string, paramcnt: int, columncnt: nat)
      modifies this`values
      ensures var a := ColumnFold(old(values), skpNilWrCol, CommandType, dbEnConst, ParameterOffset);
        text == Render(a.pieces) && paramcnt == a.cnt && columncnt == a.n
      ensures values == ResolveAll(old(values), skpNilWrCol, false)
    {
      ghost var vs := values;
      var skp, cmd, ec, start := skpNilWrCol, CommandType, dbEnConst, ParameterOffset;
      var cma := "";
      text, paramcnt, columncnt := "", start, 0;
      var idx := 0;
      PartlyResolvedEnds(vs, skp, false);
      while idx < |values|
        invariant 0 <= idx <= |values| == |vs|
        invariant values == PartlyResolved(vs, idx, skp, false)
        invariant var a := ColumnFold(vs[..idx], skp, cmd, ec, start);
          text == Render(a.pieces) && paramcnt == a.cnt && columncnt == a.n && cma == Sep(columncnt, ", ")
        decreases |vs| - idx
      {
        cma, text, paramcnt, columncnt := ColumnPass(vs, idx, skp, cmd, ec, start, cma, text, paramcnt, columncnt);
        idx := idx + 1;
      }
      assert vs[..idx] == vs;
    }

    /** The text the INSERT VALUES loop writes for one stored entry: nothing
        when it is left out, otherwise `NULL`, the value's text or a
        placeholder, after the separator. */
    static method InsertItem(ghost a: Acc, v: QueryValue, ec: EngineConstants, cma: string, cnt: int)
      returns (item: string, paramcnt: int)
      requires cma == Sep(a.n, ",") && cnt == a.cnt
      requires !Omitted(v)
      ensures var next := InsertStep(a, v, ec);
        Render(next.pieces) == Render(a.pieces) + item && paramcnt == next.cnt && next.n == a.n + 1
    {
      paramcnt := cnt;
      var pchar := "NULL";
      if !IsNil(v.value) && !v.forceNull {
        if !v.sqlstring {
          pchar := InsertLiteral(v.value);
        } else {
          pchar, paramcnt := NextPlaceholder(ec, paramcnt);
        }
      }
      item := cma + pchar;
      if !IsNil(v.value) && !v.forceNull && v.sqlstring {
        RenderSnoc(a.pieces, cma, pchar, v.value);
      } else {
        RenderSnoc(a.pieces, item, "", Nil);
      }
    }

    /** The INSERT VALUES loop over the stored entries, writing one item per
        column slot into an array of `columncnt` items. */
    method WriteInsertValues(start: int, columncnt: nat) returns (text: string, paramcnt: int)
      requires columncnt == |KeptNames(values)|
      ensures text == Render(InsertFold(values, dbEnConst, start).pieces)
      ensures paramcnt == InsertFold(values, dbEnConst, start).cnt
    {
      var vs, ec := values, dbEnConst;
      var cma := "";
      var inscnt := 0;
      var q := new string[columncnt];
      paramcnt := start;
      var i := 0;
      assert vs[..0] == [];
      while i < |vs|
        invariant 0 <= i <= |vs| && columncnt == q.Length
        invariant inscnt == |KeptNames(vs[..i])| <= columncnt
        invariant var a := InsertFold(vs[..i], ec, start);
          inscnt == a.n && paramcnt == a.cnt && Concat(q[..inscnt]) == Render(a.pieces) && cma == Sep(inscnt, ",")
      {
        cma, paramcnt, inscnt := InsertLoopPass(vs, i, ec, start, cma, paramcnt, q, inscnt);
        i := i + 1;
      }
      assert vs[..i] == vs;
      assert q[..] == q[..inscnt];
      JoinEmpty(q[..]);
      text := Join(q[..], "");
    }

    /** One pass of the INSERT VALUES loop on entry `i`. */
    static method InsertLoopPass(vs: seq<QueryValue>, i: nat, ec: EngineConstants, start: int,
                                 cma: string, cnt: int, q: array<string>, inscnt: nat)
      returns (cma': string, paramcnt: int, inscnt': nat)
      requires i < |vs| && q.Length == |KeptNames(vs)|
      requires inscnt == |KeptNames(vs[..i])| <= q.Length
      requires var a := InsertFold(vs[..i], ec, start);
        inscnt == a.n && cnt == a.cnt && Concat(q[..inscnt]) == Render(a.pieces) && cma == Sep(inscnt, ",")
      modifies q
      ensures inscnt' == |KeptNames(vs[..i + 1])| <= q.Length
      ensures var a := InsertFold(vs[..i + 1], ec, start);
        inscnt' == a.n && paramcnt == a.cnt && Concat(q[..inscnt']) == Render(a.pieces) && cma' == Sep(inscnt', ",")
    {
      InsertFoldSnoc(vs, i, ec, start);
      cma', paramcnt, inscnt' := InsertPass(InsertFold(vs[..i], ec, start), vs[i], ec, cma, cnt, q, inscnt);
    }

    /** One pass of the INSERT VALUES loop: an entry not left out gets its
        item written into the next slot. */
    static method InsertPass(ghost a: Acc, v: QueryValue, ec: EngineConstants, cma: string, cnt: int,
                             q: array<string>, inscnt: nat)
      returns (cma': string, paramcnt: int, inscnt': nat)
      requires inscnt <= q.Length && (!Omitted(v) ==> inscnt < q.Length)
      requires cma == Sep(a.n, ",") && cnt == a.cnt && inscnt == a.n && Concat(q[..inscnt]) == Render(a.pieces)
      modifies q
      ensures var next := InsertStep(a, v, ec);
        inscnt' == next.n && paramcnt == next.cnt && Concat(q[..inscnt']) == Render(next.pieces) &&
        cma' == Sep(inscnt', ",")
    {
      cma', paramcnt, inscnt' := cma, cnt, inscnt;
      if !(v.skip && !v.forceNull) {
        var item;
        item, paramcnt := InsertItem(a, v, ec, cma, cnt);
        PutItem(q, inscnt, item);
        cma' := ",";
        inscnt' := inscnt + 1;
      }
    }

    /** Stores the next INSERT item in its slot. */
    static method PutItem(q: array<string>, inscnt: nat, item: string)
      requires inscnt < q.Length
      modifies q
      ensures Concat(q[..inscnt + 1]) == Concat(old(q[..inscnt])) + item
    {
      ghost var before := q[..inscnt];
      q[inscnt] := item;
      assert q[..inscnt + 1] == before + [item];
      ConcatAppend(before, [item]);
      assert Concat([item]) == item;
    }

    /** The filter loop and the callback's fragments: the condition text that
        follows WHERE. */
    method WriteConditions(start: int) returns (text: string, paramcnt: int)
      ensures var f := FilterFold(Filter, dbEnConst, start);
        paramcnt == f.cnt &&
        text == Render(FragmentFold(Callback(FilterFunc, f.cnt, dbEnConst).fragments, f).pieces)
    {
      var fs, ec := Filter, dbEnConst;
      var cma := "";
      text, paramcnt := "", start;
      var i := 0;
      assert fs[..0] == [];
      while i < |fs|
        invariant 0 <= i <= |fs|
        invariant var a := FilterFold(fs[..i], ec, start);
          text == Render(a.pieces) && paramcnt == a.cnt && cma == Sep(a.n, AndSep)
      {
        cma, text, paramcnt := FilterLoopPass(fs, i, ec, start, cma, text, paramcnt);
        i := i + 1;
      }
      assert fs[..i] == fs;
      if FilterFunc.Some? {
        ghost var f := FilterFold(fs, ec, start);
        var out := FilterFunc.value(paramcnt, ec.ParameterChar, ec.ParameterInSequence);
        var fbs := out.fragments;
        var j := 0;
        assert fbs[..0] == [];
        while j < |fbs|
          invariant 0 <= j <= |fbs|
          invariant var a := FragmentFold(fbs[..j], f); text == Render(a.pieces) && cma == Sep(a.n, AndSep)
        {
          cma, text := FragmentPass(fbs, j, f, cma, text);
          j := j + 1;
        }
        assert fbs[..j] == fbs;
      }
    }

    /** One pass of the filter loop on condition `i`. */
    static method FilterLoopPass(fs: seq<QueryFilter>, i: nat, ec: EngineConstants, start: int,
                                 cma: string, text: string, cnt: int)
      returns (cma': string, text': string, paramcnt: int)
      requires i < |fs|
      requires var a := FilterFold(fs[..i], ec, start);
        text == Render(a.pieces) && cnt == a.cnt && cma == Sep(a.n, AndSep)
      ensures var a := FilterFold(fs[..i + 1], ec, start);
        text' == Render(a.pieces) && paramcnt == a.cnt && cma' == Sep(a.n, AndSep)
    {
      FilterFoldSnoc(fs, i, ec, start);
      var item;
      item, paramcnt := FilterItem(FilterFold(fs[..i], ec, start), fs[i], ec, cma, cnt);
      text' := text + item;
      cma' := AndSep;
    }

    /** One pass of the fragment loop on fragment `j`: written after the
        separator, as literal text. */
    static method FragmentPass(fbs: seq<string>, j: nat, ghost f: Acc, cma: string, text: string)
      returns (cma': string, text': string)
      requires j < |fbs|
      requires var a := FragmentFold(fbs[..j], f); text == Render(a.pieces) && cma == Sep(a.n, AndSep)
      ensures var a := FragmentFold(fbs[..j + 1], f); text' == Render(a.pieces) && cma' == Sep(a.n, AndSep)
    {
      ghost var a := FragmentFold(fbs[..j], f);
      FragmentFoldSnoc(fbs, j, f);
      RenderSnoc(a.pieces, cma + fbs[j], "", Nil);
      text' := text + (cma + fbs[j]);
      cma' := AndSep;
    }

    /** The text the filter loop writes for one condition, after the
        separator: `= ` and a placeholder for a non-nil value, otherwise the
        bare expression of a filter that carries its own value, or
        `IS NULL`. */
    static method FilterItem(ghost a: Acc, c: QueryFilter, ec: EngineConstants, cma: string, cnt: int)
      returns (item: string, paramcnt: int)
      requires cma == Sep(a.n, AndSep) && cnt == a.cnt
      ensures var next := FilterStep(a, c, ec);
        Render(next.pieces) == Render(a.pieces) + item && paramcnt == next.cnt
    {
      paramcnt := cnt;
      if !IsNil(c.value) {
        var pchar;
        pchar, paramcnt := NextPlaceholder(ec, paramcnt);
        RenderSnoc(a.pieces, cma + c.expression + " = ", pchar, c.value);
        item := cma + c.expression + " = " + pchar;
      } else {
        var tail := if c.containsValue then "" else " IS NULL";
        item := cma + c.expression + tail;
        RenderSnoc(a.pieces, item, "", Nil);
      }
    }

    /** ORDER BY, GROUP BY, a rear LIMIT and the semicolon. */
    method WriteTrailer() returns (text: string)
      ensures text == Trailer(order, group, ResultLimit, dbEnConst.ResultLimitPosition)
    {
      text := "";
      if |order| > 0 {
        var items := "";
        var cma := "";
        var i := 0;
        while i < |order|
          invariant 0 <= i <= |order|
          invariant items == OrderItems(order[..i]) && cma == Sep(i, ", ")
        {
          assert order[..i + 1][..i] == order[..i];
          items := items + cma + order[i].column;
          if order[i].order == Asc {
            items := items + " ASC";
          } else {
            items := items + " DESC";
          }
          cma := ", ";
          i := i + 1;
        }
        assert order[..i] == order;
        text := " ORDER BY " + items;
      }
      if |group| > 0 {
        text := text + (" GROUP BY " + Join(group, ", "));
      }
      if |ResultLimit| > 0 && dbEnConst.ResultLimitPosition == Rear {
        text := text + (" LIMIT " + ResultLimit);
      }
      text := text + ";";
    }

    /** The argument loops: column arguments, filter arguments (not for
        INSERT), then the callback's arguments when it returned fragments. */
    method CollectArgs(paramcnt: int) returns (args: seq<Input>)
      ensures args == ColumnArgs(values, CommandType) +
        (if CommandType != Insert then FilterArgs(Filter) else []) +
        (var out := Callback(FilterFunc, paramcnt, dbEnConst); if |out.fragments| > 0 then out.args else [])
    {
      var vs, fs, cmd := values, Filter, CommandType;
      args := [];
      var i := 0;
      while i < |vs|
        invariant 0 <= i <= |vs| && args == ColumnArgs(vs[..i], cmd)
      {
        assert vs[..i + 1][..i] == vs[..i];
        var v := vs[i];
        if !(v.skip || !v.sqlstring || !(cmd == Insert || cmd == Update) || IsNil(v.value) || v.forceNull) {
          args := args + [v.value];
        }
        i := i + 1;
      }
      assert vs[..i] == vs;
      ghost var colArgs := args;
      i := 0;
      while i < |fs|
        invariant 0 <= i <= |fs|
        invariant args == colArgs + (if cmd != Insert then FilterArgs(fs[..i]) else [])
      {
        assert fs[..i + 1][..i] == fs[..i];
        if cmd != Insert && !IsNil(fs[i].value) {
          AppendAssoc(colArgs, FilterArgs(fs[..i]), [fs[i].value]);
          args := args + [fs[i].value];
        }
        i := i + 1;
      }
      assert fs[..i] == fs;
      if FilterFunc.Some? {
        var out := FilterFunc.value(paramcnt, dbEnConst.ParameterChar, dbEnConst.ParameterInSequence);
        if |out.fragments| > 0 {
          args := args + out.args;
        }
      }
    }

    /** The statement's head: the SELECT keyword with DISTINCT and a front
        limit, or the INSERT, UPDATE or DELETE opening with the table. */
    method WriteHeader() returns (text: string)
      ensures text == Header(Snapshot())
    {
      match CommandType {
      case Select =>
        text := "SELECT ";
        if distinct {
          text := text + "DISTINCT ";
        }
        if |ResultLimit| > 0 && dbEnConst.ResultLimitPosition == Front {
          text := text + (" TOP " + ResultLimit + " ");
        }
      case Insert =>
        text := "INSERT INTO " + Source + " (";
      case Update =>
        text := "UPDATE " + Source + " SET ";
      case Delete =>
        text := "DELETE \rFROM " + Source;
      }
    }

    /** What follows the column list: the VALUES list of an INSERT, or the
        FROM of a SELECT and a WHERE clause when there are conditions. */
    method WriteBody(start: int, columncnt: nat) returns (text: string, paramcnt: int)
      requires CommandType == Insert ==> columncnt == |KeptNames(values)|
      ensures CommandType == Insert ==>
        text == ") VALUES (" + Render(InsertFold(values, dbEnConst, start).pieces) + ")" &&
        paramcnt == InsertFold(values, dbEnConst, start).cnt
      ensures CommandType != Insert ==>
        var f := FilterFold(Filter, dbEnConst, start);
        var cond := Render(FragmentFold(Callback(FilterFunc, f.cnt, dbEnConst).fragments, f).pieces);
        text == (if CommandType == Select then " \rFROM " + Source else "") + (if cond != "" then "\r\t WHERE " + cond else "") &&
        paramcnt == f.cnt
    {
      text, paramcnt := "", start;
      if CommandType == Select {
        text := " \rFROM " + Source;
      }
      if CommandType == Insert {
        var ins;
        ins, paramcnt := WriteInsertValues(start, columncnt);
        text := ") VALUES (" + ins + ")";
      }
      if CommandType == Select || CommandType == Update || CommandType == Delete {
        var cond;
        cond, paramcnt := WriteConditions(start);
        if |cond| > 0 {
          text := text + ("\r\t WHERE " + cond);
        }
      }
    }

    /** The qualifier for `{table}` tokens: the reference prefix (ending in
        `_`) in reference mode, overridden by a non-empty schema. */
    method Qualifier() returns (sch: string)
      ensures sch == TableQualifier(schema, referenceMode, referenceModePrefix)
    {
      sch := "";
      if referenceMode {
        sch := referenceModePrefix;
        if !HasSuffix(sch, "_") {
          sch := sch + "_";
        }
      }
      if schema != "" {
        sch := schema;
      }
    }

    /** The first half of a build that passed validation: normalises the
        stored values and filters in place, writes the statement head and
        the column list, and records each entry's resolution. */
    method Prepare() returns (text: string, paramcnt: int, columncnt: nat)
      modifies this`values, this`Filter
      ensures text == Header(old(Snapshot())) + Render(ColumnsOf(old(Snapshot())).pieces)
      ensures paramcnt == ColumnsOf(old(Snapshot())).cnt
      ensures Snapshot() == old(Snapshot()).(values := StoredOf(old(Snapshot()), false), Filter := NormalizeFilters(old(Filter)))
      ensures CommandType == Insert ==> columncnt == |KeptNames(values)|
      ensures FilterFunc == old(FilterFunc)
    {
      ghost var b := Snapshot();
      NormalizeInPlace();
      text := WriteHeader();
      var cols;
      cols, paramcnt, columncnt := WriteColumns();
      text := text + cols;
      assert CommandType == Insert ==> columncnt == |KeptNames(values)| by {
        InsertListsKeptEntries(NormalizeValues(b.values), b.skpNilWrCol, b.dbEnConst, b.ParameterOffset, false);
      }
    }

    /** The statement text of a build that passed validation: `Prepare`,
        then the body and the trailer. Returns the counter after the last
        placeholder. */
    method Assemble() returns (text: string, paramcnt: int)
      modifies this`values, this`Filter
      ensures text == Render(Pieces(old(Snapshot()), old(FilterFunc), false))
      ensures paramcnt == FinalCount(old(Snapshot()), false)
      ensures Snapshot() == old(Snapshot()).(values := StoredOf(old(Snapshot()), false), Filter := NormalizeFilters(old(Filter)))
      ensures FilterFunc == old(FilterFunc)
    {
      ghost var b := Snapshot();
      ghost var ff := FilterFunc;
      var columncnt;
      text, paramcnt, columncnt := Prepare();
      var body;
      body, paramcnt := WriteBody(paramcnt, columncnt);
      assert paramcnt == FinalCount(b, false) && body == Render(Body(b, ff, false)) by {
        BodyText(b, ff, false);
      }
      var trailer := WriteTrailer();
      text := text + body + trailer;
      assert text == Render(Pieces(b, ff, false)) by {
        PiecesText(b, ff, false);
      }
    }

    /** The arguments of a build whose statement `Assemble` wrote, and the
        counter written back. */
    method Conclude(ghost b: Builder, ghost ff: Option<FilterCallback>, paramcnt: int) returns (args: seq<Input>)
      requires Snapshot() == b.(values := StoredOf(b, false), Filter := NormalizeFilters(b.Filter))
      requires paramcnt == FinalCount(b, false) && FilterFunc == ff
      modifies this`ParameterOffset
      ensures args == Args(b, ff, false)
      ensures Snapshot() == b.(values := StoredOf(b, false), Filter := NormalizeFilters(b.Filter), ParameterOffset := paramcnt)
      ensures FilterFunc == ff
    {
      args := CollectArgs(paramcnt);
      ParameterOffset := paramcnt;
    }

    /** `Build`: the statement, its arguments and the new state, as
        `BuildWith` gives them for the code as written. */
    method Build() returns (query: string, args: seq<Input>, err: Option<BuildError>)
      modifies this`values, this`Filter, this`ParameterOffset
      ensures (BuildResult(query, args, err), Snapshot()) == BuildWith(old(Snapshot()), old(FilterFunc), false)
      ensures FilterFunc == old(FilterFunc)
      ensures old(Valid()) ==> Valid()
    {
      if Source == "" {
        return "", [], Some(ErrNoTableSpecified);
      }
      if |columns| == 0 && CommandType != Delete {
        return "", [], Some(ErrNoColumnSpecified);
      }
      ghost var b := Snapshot();
      ghost var ff := FilterFunc;
      var paramcnt;
      query, paramcnt := Assemble();
      args := Conclude(b, ff, paramcnt);
      if intTbls {
        var sch := Qualifier();
        query := InterpolateTable(query, sch);
      }
      err := None;
      assert BuildWith(b, ff, false) == (BuildResult(query, args, None), Snapshot()) by {
        assert Validate(b) == None;
      }
      if Lockstep(b.columns, b.values) {
        BuildKeepsLockstep(b, ff, false);
      }
    }
  }
}
