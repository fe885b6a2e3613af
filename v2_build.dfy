/** What the v2 `Build` computes, as functions of the builder's state.

  A build runs in stages: validation; normalisation of every stored value;
  per-entry resolution (nil value -> default -> match-to-null -> skip), which
  is written back into the entries; the column list for the command; the
  VALUES list of an INSERT; the filter conditions with the callback's
  fragments; the ORDER BY / GROUP BY / LIMIT trailer; the argument list;
  table-name interpolation; and the write-back of the parameter counter.

  Each list the source builds in a loop is given here as a fold whose step
  is one loop iteration: an accumulator holds the pieces written so far, the
  parameter counter and the number of items written (which picks the
  separator). Emission is described by pieces (literal text or a placeholder
  carrying the value the code had in hand), so "placeholders and arguments
  line up" reads `args == ParamValues(pieces)`.

  `fixed` selects between the code as written (`false`) and the corrected
  resolution step (`true`) that stores the default it falls back to. */
module V2Build {
  import opened Values
  import opened Text
  import opened Normalize
  import opened Dialect
  import opened Emission
  import opened Interpolation
  import opened V2State

  /** What a filter callback returns: condition fragments and their arguments. */
  datatype FilterOutput = FilterOutput(fragments: seq<string>, args: seq<Input>)

  /** The filter callback, given the parameter counter, the parameter
      character and whether placeholders are numbered. */
  type FilterCallback = (int, string, bool) -> FilterOutput

  /** The builder's state, without the callback. `schema`, `referenceMode` and
      `referenceModePrefix` are the database configuration's settings. */
  datatype Builder = Builder(
    Source: string,
    CommandType: CommandType,
    Filter: seq<QueryFilter>,
    ResultLimit: string,
    ParameterOffset: int,
    skpNilWrCol: bool,
    dbEnConst: EngineConstants,
    intTbls: bool,
    order: seq<QuerySort>,
    group: seq<string>,
    columns: seq<QueryColumn>,
    values: seq<QueryValue>,
    distinct: bool,
    schema: string,
    referenceMode: bool,
    referenceModePrefix: string)

  datatype BuildError = ErrNoTableSpecified | ErrNoColumnSpecified

  datatype BuildResult = BuildResult(query: string, args: seq<Input>, err: Option<BuildError>)

  /** The fail-fast checks, in the source's order. */
  function Validate(b: Builder): Option<BuildError>
  {
    if b.Source == "" then Some(ErrNoTableSpecified)
    else if |b.columns| == 0 && b.CommandType != Delete then Some(ErrNoColumnSpecified)
    else None
  }

  // ---------------------------------------------------------------------------
  // Normalisation and resolution

  function NormalizeValue(v: QueryValue): QueryValue
  {
    v.(value := RealValue(v.value), defValue := RealValue(v.defValue), matchToNull := RealValue(v.matchToNull))
  }

  function NormalizeValues(vs: seq<QueryValue>): seq<QueryValue>
  {
    seq(|vs|, i requires 0 <= i < |vs| => NormalizeValue(vs[i]))
  }

  function NormalizeFilter(f: QueryFilter): QueryFilter
  {
    f.(value := RealValue(f.value))
  }

  function NormalizeFilters(fs: seq<QueryFilter>): seq<QueryFilter>
  {
    seq(|fs|, i requires 0 <= i < |fs| => NormalizeFilter(fs[i]))
  }

  /** How one entry is written: the value in effect, whether it counts as
      null, and whether it was forced to null by its match-to-null value. */
  datatype Resolution = Resolution(effective: Input, isnl: bool, forceNull: bool)

  /** The per-entry resolution: a nil value falls back to a non-nil default;
      a non-null value equal to the match-to-null value is forced to null. */
  function Resolve(e: QueryValue): (r: Resolution)
    ensures r.effective == (if IsNil(e.value) && !IsNil(e.defValue) then e.defValue else e.value)
    ensures r.forceNull <==> !IsNil(r.effective) && !IsNil(e.matchToNull) && GoEqual(e.matchToNull, r.effective)
    ensures r.isnl <==> IsNil(r.effective) || r.forceNull
  {
    var isnl := IsNil(e.value);
    var defaulted := isnl && !IsNil(e.defValue);
    var eff := if defaulted then e.defValue else e.value;
    var forced := !(isnl && !defaulted) && !IsNil(e.matchToNull) && GoEqual(e.matchToNull, eff);
    Resolution(eff, (isnl && !defaulted) || forced, forced)
  }

  /** The entry as the column loop leaves it: `forceNull` and `skip` recorded,
      `sqlstring` turned on by a forced null. As written, the default the
      resolution fell back to is NOT stored; the corrected step stores it. */
  function Store(e: QueryValue, skpNil: bool, fixed: bool): QueryValue
  {
    var r := Resolve(e);
    e.(value := if fixed then r.effective else e.value,
       sqlstring := e.sqlstring || r.forceNull,
       skip := skpNil && r.isnl,
       forceNull := r.forceNull)
  }

  function ResolveAll(es: seq<QueryValue>, skpNil: bool, fixed: bool): seq<QueryValue>
  {
    seq(|es|, i requires 0 <= i < |es| => Store(es[i], skpNil, fixed))
  }

  /** An entry that INSERT and UPDATE leave out: skipped and not forced. */
  predicate Omitted(s: QueryValue)
  {
    s.skip && !s.forceNull
  }

  /** An entry whose value is nil and whose default is not: the case the
      source resolves into a local copy only. */
  predicate UsesDefault(e: QueryValue)
  {
    IsNil(e.value) && !IsNil(e.defValue)
  }

  // ---------------------------------------------------------------------------
  // Text of values written verbatim

  /** A non-SQL-string UPDATE value as written after ` = `: strings as they
      are, `int`/`int64` in decimal, booleans as 1/0, floats in exponent form,
      anything else as nothing. */
  function UpdateLiteral(x: Input): string
  {
    match x
    case Plain(Str(s)) => s
    case Plain(Integer(Int, n)) => IntToString(n)
    case Plain(Integer(Int64, n)) => IntToString(n)
    case Plain(Boolean(t)) => if t then "1" else "0"
    case Plain(Floating(_, _, sci)) => sci
    case _ => ""
  }

  /** A non-SQL-string INSERT value: a string as it is, anything else empty. */
  function InsertLiteral(x: Input): string
  {
    match x
    case Plain(Str(s)) => s
    case _ => ""
  }

  // ---------------------------------------------------------------------------
  // Emission folds

  /** Pieces written so far, the parameter counter, and the number of items
      written (the separator goes before every item but the first). */
  datatype Acc = Acc(pieces: seq<Piece>, cnt: int, n: nat)

  const AndSep: string := "\r\t\t AND "

  /** One entry of the column loop. SELECT lists every entry; INSERT and
      UPDATE leave out skipped entries that are not forced to null; UPDATE
      writes `= NULL`, `= placeholder` or `= literal`; DELETE writes nothing. */
  function ColumnStep(a: Acc, e: QueryValue, skpNil: bool, cmd: CommandType, ec: EngineConstants): Acc
  {
    var r := Resolve(e);
    var sep := Sep(a.n, ", ");
    if cmd == Select then Acc(a.pieces + [Lit(sep + e.column)], a.cnt, a.n + 1)
    else if cmd == Delete || (skpNil && r.isnl && !r.forceNull) then a
    else if cmd == Insert then Acc(a.pieces + [Lit(sep + e.column)], a.cnt, a.n + 1)
    else if r.isnl then Acc(a.pieces + [Lit(sep + e.column + " = NULL")], a.cnt, a.n + 1)
    else if e.sqlstring then
      Acc(a.pieces + [Lit(sep + e.column + " = "), Param(Placeholder(ec, Next(ec, a.cnt)), r.effective)], Next(ec, a.cnt), a.n + 1)
    else Acc(a.pieces + [Lit(sep + e.column + " = " + UpdateLiteral(r.effective))], a.cnt, a.n + 1)
  }

  function ColumnFold(es: seq<QueryValue>, skpNil: bool, cmd: CommandType, ec: EngineConstants, start: int): Acc
  {
    if es == [] then Acc([], start, 0)
    else ColumnStep(ColumnFold(es[..|es| - 1], skpNil, cmd, ec, start), es[|es| - 1], skpNil, cmd, ec)
  }

  /** One entry of the INSERT VALUES loop, over the stored entries: `NULL` for
      a nil or forced value, the text of a non-SQL-string value, otherwise a
      placeholder. */
  function InsertStep(a: Acc, s: QueryValue, ec: EngineConstants): Acc
  {
    var sep := Sep(a.n, ",");
    if Omitted(s) then a
    else if IsNil(s.value) || s.forceNull then Acc(a.pieces + [Lit(sep + "NULL")], a.cnt, a.n + 1)
    else if !s.sqlstring then Acc(a.pieces + [Lit(sep + InsertLiteral(s.value))], a.cnt, a.n + 1)
    else Acc(a.pieces + [Lit(sep), Param(Placeholder(ec, Next(ec, a.cnt)), s.value)], Next(ec, a.cnt), a.n + 1)
  }

  function InsertFold(ss: seq<QueryValue>, ec: EngineConstants, start: int): Acc
  {
    if ss == [] then Acc([], start, 0)
    else InsertStep(InsertFold(ss[..|ss| - 1], ec, start), ss[|ss| - 1], ec)
  }

  /** One filter: `expr = placeholder` with a value, `expr IS NULL` without
      one, and the bare expression for an expression-only filter. */
  function FilterStep(a: Acc, f: QueryFilter, ec: EngineConstants): Acc
  {
    var sep := Sep(a.n, AndSep);
    if !IsNil(f.value) then
      Acc(a.pieces + [Lit(sep + f.expression + " = "), Param(Placeholder(ec, Next(ec, a.cnt)), f.value)], Next(ec, a.cnt), a.n + 1)
    else Acc(a.pieces + [Lit(sep + f.expression + (if f.containsValue then "" else " IS NULL"))], a.cnt, a.n + 1)
  }

  function FilterFold(fs: seq<QueryFilter>, ec: EngineConstants, start: int): Acc
  {
    if fs == [] then Acc([], start, 0)
    else FilterStep(FilterFold(fs[..|fs| - 1], ec, start), fs[|fs| - 1], ec)
  }

  /** The callback's fragments, appended to the filter conditions. */
  function FragmentFold(frags: seq<string>, a: Acc): Acc
  {
    if frags == [] then a
    else
      var b := FragmentFold(frags[..|frags| - 1], a);
      Acc(b.pieces + [Lit(Sep(b.n, AndSep) + frags[|frags| - 1])], b.cnt, b.n + 1)
  }

  /** The WHERE clause, written only when the conditions have some text. */
  function WherePieces(cond: seq<Piece>): seq<Piece>
  {
    if Render(cond) != "" then [Lit("\r\t WHERE ")] + cond else []
  }

  /** The statement's head, before the column list. */
  function Header(b: Builder): string
  {
    match b.CommandType
    case Select => SelectHead(b.distinct, b.ResultLimit, b.dbEnConst.ResultLimitPosition)
    case Insert => "INSERT INTO " + b.Source + " ("
    case Update => "UPDATE " + b.Source + " SET "
    case Delete => "DELETE \rFROM " + b.Source
  }

  function Callback(ff: Option<FilterCallback>, cnt: int, ec: EngineConstants): FilterOutput
  {
    if ff.Some? then ff.value(cnt, ec.ParameterChar, ec.ParameterInSequence) else FilterOutput([], [])
  }

  // ---------------------------------------------------------------------------
  // Arguments

  /** A stored entry's argument: INSERT/UPDATE, SQL string, not skipped,
      non-nil and not forced to null. */
  function ColumnArg(s: QueryValue, cmd: CommandType): seq<Input>
  {
    if !s.skip && s.sqlstring && (cmd == Insert || cmd == Update) && !IsNil(s.value) && !s.forceNull
    then [s.value] else []
  }

  function ColumnArgs(ss: seq<QueryValue>, cmd: CommandType): seq<Input>
  {
    if ss == [] then [] else ColumnArgs(ss[..|ss| - 1], cmd) + ColumnArg(ss[|ss| - 1], cmd)
  }

  function FilterArgs(fs: seq<QueryFilter>): seq<Input>
  {
    if fs == [] then []
    else FilterArgs(fs[..|fs| - 1]) + (if !IsNil(fs[|fs| - 1].value) then [fs[|fs| - 1].value] else [])
  }

  // ---------------------------------------------------------------------------
  // The whole build

  /** The entries after normalisation and resolution, as written back. */
  function StoredOf(b: Builder, fixed: bool): seq<QueryValue>
  {
    ResolveAll(NormalizeValues(b.values), b.skpNilWrCol, fixed)
  }

  /** The column list (with the `= ...` parts of an UPDATE). */
  function ColumnsOf(b: Builder): Acc
  {
    ColumnFold(NormalizeValues(b.values), b.skpNilWrCol, b.CommandType, b.dbEnConst, b.ParameterOffset)
  }

  /** The INSERT VALUES items, numbered on from the column list. */
  function ValuesOf(b: Builder, fixed: bool): Acc
  {
    InsertFold(StoredOf(b, fixed), b.dbEnConst, ColumnsOf(b).cnt)
  }

  /** The filter conditions, numbered on from the column list. */
  function FiltersOf(b: Builder): Acc
  {
    FilterFold(NormalizeFilters(b.Filter), b.dbEnConst, ColumnsOf(b).cnt)
  }

  /** The counter at the end of the build: INSERT writes no filters. */
  function FinalCount(b: Builder, fixed: bool): int
  {
    if b.CommandType == Insert then ValuesOf(b, fixed).cnt else FiltersOf(b).cnt
  }

  /** What the callback returns; both calls get the same counter. */
  function CallbackOf(b: Builder, ff: Option<FilterCallback>, fixed: bool): FilterOutput
  {
    Callback(ff, FinalCount(b, fixed), b.dbEnConst)
  }

  /** The filter conditions followed by the callback's fragments. */
  function ConditionsOf(b: Builder, ff: Option<FilterCallback>, fixed: bool): Acc
  {
    FragmentFold(CallbackOf(b, ff, fixed).fragments, FiltersOf(b))
  }

  /** What follows the column list: the VALUES list of an INSERT, otherwise
      the FROM of a SELECT and the WHERE clause. */
  function Body(b: Builder, ff: Option<FilterCallback>, fixed: bool): seq<Piece>
  {
    if b.CommandType == Insert then [Lit(") VALUES (")] + ValuesOf(b, fixed).pieces + [Lit(")")]
    else (if b.CommandType == Select then [Lit(" \rFROM " + b.Source)] else []) + WherePieces(ConditionsOf(b, ff, fixed).pieces)
  }

  /** The whole statement, before interpolation. */
  function Pieces(b: Builder, ff: Option<FilterCallback>, fixed: bool): seq<Piece>
  {
    [Lit(Header(b))] + ColumnsOf(b).pieces + Body(b, ff, fixed) +
    [Lit(Trailer(b.order, b.group, b.ResultLimit, b.dbEnConst.ResultLimitPosition))]
  }

  /** The argument list: column arguments, filter arguments (not for INSERT),
      then the callback's arguments. As written these are added whenever the
      callback returned fragments; corrected, only when the fragments were
      written, which INSERT never does. */
  function Args(b: Builder, ff: Option<FilterCallback>, fixed: bool): seq<Input>
  {
    var out := CallbackOf(b, ff, fixed);
    ColumnArgs(StoredOf(b, fixed), b.CommandType) +
    (if b.CommandType != Insert then FilterArgs(NormalizeFilters(b.Filter)) else []) +
    (if |out.fragments| > 0 && (!fixed || b.CommandType != Insert) then out.args else [])
  }

  /** `Build`: the result and the builder's state afterwards. */
  function BuildWith(b: Builder, ff: Option<FilterCallback>, fixed: bool): (r: (BuildResult, Builder))
    ensures r.0.err == Some(ErrNoTableSpecified) <==> b.Source == ""
    ensures r.0.err == Some(ErrNoColumnSpecified) <==> b.Source != "" && |b.columns| == 0 && b.CommandType != Delete
    ensures r.0.err.Some? ==> r.0.query == "" && r.0.args == [] && r.1 == b
    ensures r.0.err.None? ==> r.1 == b.(values := r.1.values, Filter := r.1.Filter, ParameterOffset := r.1.ParameterOffset)
    ensures r.0.err.None? ==> |r.1.values| == |b.values| && |r.1.Filter| == |b.Filter|
  {
    match Validate(b)
    case Some(e) => (BuildResult("", [], Some(e)), b)
    case None =>
      var text := Render(Pieces(b, ff, fixed));
      var query := if b.intTbls then InterpolateTable(text, TableQualifier(b.schema, b.referenceMode, b.referenceModePrefix)) else text;
      (BuildResult(query, Args(b, ff, fixed), None),
       b.(values := StoredOf(b, fixed), Filter := NormalizeFilters(b.Filter), ParameterOffset := FinalCount(b, fixed)))
  }
}
