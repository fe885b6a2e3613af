/** What the v2 `Build` guarantees, and where it does not: placeholder
    numbering, the line-up of placeholders and arguments, the shape of each
    command, and two inputs on which the code as written breaks the line-up. */
module V2Properties {
  import opened Values
  import opened Text
  import opened Normalize
  import opened Dialect
  import opened Emission
  import opened V2State
  import opened V2Build

  // ---------------------------------------------------------------------------
  // One loop iteration at a time

  lemma ColumnStepFacts(a: Acc, e: QueryValue, skpNil: bool, cmd: CommandType, ec: EngineConstants,
                        start: int, fixed: bool)
    requires Counted(a.pieces, a.cnt, ec, start)
    requires cmd == Update && !fixed ==> !UsesDefault(e)
    ensures var c := ColumnStep(a, e, skpNil, cmd, ec);
      Counted(c.pieces, c.cnt, ec, start) &&
      ParamValues(c.pieces) == ParamValues(a.pieces) + (if cmd == Update then ColumnArg(Store(e, skpNil, fixed), cmd) else [])
  {
    ColumnStepCounted(a, e, skpNil, cmd, ec, start);
    ColumnStepParams(a, e, skpNil, cmd, ec, fixed);
  }

  /** One column item keeps the placeholders numbered. */
  lemma ColumnStepCounted(a: Acc, e: QueryValue, skpNil: bool, cmd: CommandType, ec: EngineConstants, start: int)
    requires Counted(a.pieces, a.cnt, ec, start)
    ensures var c := ColumnStep(a, e, skpNil, cmd, ec);
      Counted(c.pieces, c.cnt, ec, start)
  {
    var r := Resolve(e);
    var sep := Sep(a.n, ", ");
    if cmd == Select || cmd == Insert {
      AppendText(a.pieces, a.cnt, sep + e.column, ec, start);
    } else if cmd == Update && !(skpNil && r.isnl && !r.forceNull) {
      if r.isnl {
        AppendText(a.pieces, a.cnt, sep + e.column + " = NULL", ec, start);
      } else if e.sqlstring {
        AppendPlaceholder(a.pieces, a.cnt, sep + e.column + " = ", r.effective, ec, start);
      } else {
        AppendText(a.pieces, a.cnt, sep + e.column + " = " + UpdateLiteral(r.effective), ec, start);
      }
    }
  }

  /** One column item adds the value of its placeholder, if it writes one. */
  lemma ColumnStepParams(a: Acc, e: QueryValue, skpNil: bool, cmd: CommandType, ec: EngineConstants, fixed: bool)
    requires cmd == Update && !fixed ==> !UsesDefault(e)
    ensures var c := ColumnStep(a, e, skpNil, cmd, ec);
      ParamValues(c.pieces) == ParamValues(a.pieces) + (if cmd == Update then ColumnArg(Store(e, skpNil, fixed), cmd) else [])
  {
    var r := Resolve(e);
    var sep := Sep(a.n, ", ");
    if cmd == Select || cmd == Insert {
      TextParams(a.pieces, sep + e.column);
    } else if cmd == Update && !(skpNil && r.isnl && !r.forceNull) {
      if r.isnl {
        TextParams(a.pieces, sep + e.column + " = NULL");
      } else if e.sqlstring {
        PlaceholderParams(a.pieces, sep + e.column + " = ", Placeholder(ec, Next(ec, a.cnt)), r.effective);
      } else {
        TextParams(a.pieces, sep + e.column + " = " + UpdateLiteral(r.effective));
      }
    }
  }

  lemma InsertStepFacts(a: Acc, s: QueryValue, ec: EngineConstants, start: int)
    requires Counted(a.pieces, a.cnt, ec, start)
    ensures var c := InsertStep(a, s, ec);
      Counted(c.pieces, c.cnt, ec, start) && ParamValues(c.pieces) == ParamValues(a.pieces) + ColumnArg(s, Insert)
  {
    var sep := Sep(a.n, ",");
    if !Omitted(s) {
      if IsNil(s.value) || s.forceNull {
        AppendText(a.pieces, a.cnt, sep + "NULL", ec, start);
        TextParams(a.pieces, sep + "NULL");
      } else if !s.sqlstring {
        AppendText(a.pieces, a.cnt, sep + InsertLiteral(s.value), ec, start);
        TextParams(a.pieces, sep + InsertLiteral(s.value));
      } else {
        AppendPlaceholder(a.pieces, a.cnt, sep, s.value, ec, start);
        PlaceholderParams(a.pieces, sep, Placeholder(ec, Next(ec, a.cnt)), s.value);
      }
    }
  }

  lemma FilterStepFacts(a: Acc, f: QueryFilter, ec: EngineConstants, start: int)
    requires Counted(a.pieces, a.cnt, ec, start)
    ensures var c := FilterStep(a, f, ec);
      Counted(c.pieces, c.cnt, ec, start) &&
      ParamValues(c.pieces) == ParamValues(a.pieces) + (if !IsNil(f.value) then [f.value] else [])
  {
    var sep := Sep(a.n, AndSep);
    if !IsNil(f.value) {
      AppendPlaceholder(a.pieces, a.cnt, sep + f.expression + " = ", f.value, ec, start);
      PlaceholderParams(a.pieces, sep + f.expression + " = ", Placeholder(ec, Next(ec, a.cnt)), f.value);
    } else {
      var x := sep + f.expression + (if f.containsValue then "" else " IS NULL");
      AppendText(a.pieces, a.cnt, x, ec, start);
      TextParams(a.pieces, x);
    }
  }

  // ---------------------------------------------------------------------------
  // Whole loops: numbering, and which values the placeholders carry

  /** The column loop numbers its placeholders on from `start`. Its UPDATE
      placeholders carry exactly the column arguments, as long as no entry
      relies on its default (or the default is stored); the other commands
      write no placeholder there. */
  lemma {:induction false} ColumnFoldFacts(es: seq<QueryValue>, skpNil: bool, cmd: CommandType, ec: EngineConstants,
                                           start: int, fixed: bool)
    requires cmd == Update && !fixed ==> forall i :: 0 <= i < |es| ==> !UsesDefault(es[i])
    ensures var a := ColumnFold(es, skpNil, cmd, ec, start);
      Counted(a.pieces, a.cnt, ec, start) &&
      ParamValues(a.pieces) == (if cmd == Update then ColumnArgs(ResolveAll(es, skpNil, fixed), cmd) else [])
    decreases |es|
  {
    if es != [] {
      var init := es[..|es| - 1];
      assert cmd == Update && !fixed ==> forall i :: 0 <= i < |init| ==> !UsesDefault(init[i]) by {
        assert forall i :: 0 <= i < |init| ==> init[i] == es[i];
      }
      ColumnFoldFacts(init, skpNil, cmd, ec, start, fixed);
      ColumnStepFacts(ColumnFold(init, skpNil, cmd, ec, start), es[|es| - 1], skpNil, cmd, ec, start, fixed);
      StoredArgsSnoc(es, skpNil, cmd, fixed);
    }
  }

  /** The arguments of the resolved entries grow by those of the last one. */
  lemma StoredArgsSnoc(es: seq<QueryValue>, skpNil: bool, cmd: CommandType, fixed: bool)
    requires es != []
    ensures ColumnArgs(ResolveAll(es, skpNil, fixed), cmd) ==
      ColumnArgs(ResolveAll(es[..|es| - 1], skpNil, fixed), cmd) + ColumnArg(Store(es[|es| - 1], skpNil, fixed), cmd)
  {
    var stored := ResolveAll(es, skpNil, fixed);
    assert stored[..|stored| - 1] == ResolveAll(es[..|es| - 1], skpNil, fixed);
  }

  /** The INSERT VALUES loop numbers its placeholders on from `start`, and
      they carry exactly the column arguments. */
  lemma {:induction false} InsertFoldFacts(ss: seq<QueryValue>, ec: EngineConstants, start: int)
    ensures var a := InsertFold(ss, ec, start);
      Counted(a.pieces, a.cnt, ec, start) && ParamValues(a.pieces) == ColumnArgs(ss, Insert)
    decreases |ss|
  {
    if ss != [] {
      InsertFoldFacts(ss[..|ss| - 1], ec, start);
      InsertStepFacts(InsertFold(ss[..|ss| - 1], ec, start), ss[|ss| - 1], ec, start);
    }
  }

  /** The filter loop numbers its placeholders on from `start`, and they carry
      exactly the non-nil filter values, in filter order. */
  lemma {:induction false} FilterFoldFacts(fs: seq<QueryFilter>, ec: EngineConstants, start: int)
    ensures var a := FilterFold(fs, ec, start);
      Counted(a.pieces, a.cnt, ec, start) && ParamValues(a.pieces) == FilterArgs(fs)
    decreases |fs|
  {
    if fs != [] {
      FilterFoldFacts(fs[..|fs| - 1], ec, start);
      FilterStepFacts(FilterFold(fs[..|fs| - 1], ec, start), fs[|fs| - 1], ec, start);
    }
  }

  lemma {:induction false} FragmentFoldCount(frags: seq<string>, a: Acc)
    ensures FragmentFold(frags, a).cnt == a.cnt && FragmentFold(frags, a).n == a.n + |frags|
    decreases |frags|
  {
    if frags != [] {
      FragmentFoldCount(frags[..|frags| - 1], a);
    }
  }

  /** The callback's fragments are text only: they add no placeholder and
      leave the counter alone. */
  lemma {:induction false} FragmentFoldParams(frags: seq<string>, a: Acc)
    ensures var c := FragmentFold(frags, a);
      c.cnt == a.cnt && c.n == a.n + |frags| &&
      ParamValues(c.pieces) == ParamValues(a.pieces) && ParamTokens(c.pieces) == ParamTokens(a.pieces)
    decreases |frags|
  {
    FragmentFoldCount(frags, a);
    if frags != [] {
      var b := FragmentFold(frags[..|frags| - 1], a);
      FragmentFoldParams(frags[..|frags| - 1], a);
      TextParams(b.pieces, Sep(b.n, AndSep) + frags[|frags| - 1]);
    }
  }

  /** The text the callback's fragments add after `n` earlier conditions. */
  function FragmentText(frags: seq<string>, n: nat): string
  {
    if frags == [] then ""
    else FragmentText(frags[..|frags| - 1], n) + Sep(n + |frags| - 1, AndSep) + frags[|frags| - 1]
  }

  /** Each fragment is written after its separator, following the filter
      conditions. */
  lemma {:induction false} FragmentFoldRender(frags: seq<string>, a: Acc)
    ensures Render(FragmentFold(frags, a).pieces) == Render(a.pieces) + FragmentText(frags, a.n)
    decreases |frags|
  {
    if frags != [] {
      var init := frags[..|frags| - 1];
      var b := FragmentFold(init, a);
      FragmentFoldRender(init, a);
      FragmentFoldCount(init, a);
      var x := Sep(b.n, AndSep) + frags[|frags| - 1];
      assert FragmentFold(frags, a).pieces == b.pieces + [Lit(x)];
      assert FragmentText(frags, a.n) == FragmentText(init, a.n) + x by {
        assert b.n == a.n + |frags| - 1;
      }
      RenderSnoc(b.pieces, x, "", Nil);
      assert Render(a.pieces) + FragmentText(init, a.n) + x == Render(a.pieces) + (FragmentText(init, a.n) + x);
    }
  }

  /** With no conditions before them, the fragments are joined by the AND
      separator. */
  lemma {:induction false} FragmentTextJoin(frags: seq<string>)
    ensures FragmentText(frags, 0) == Join(frags, AndSep)
    decreases |frags|
  {
    if frags != [] {
      FragmentTextJoin(frags[..|frags| - 1]);
      if |frags| == 1 {
        assert frags[..0] == [];
      }
    }
  }

  lemma RenderGrows(a: seq<Piece>, b: seq<Piece>)
    ensures |Render(a + b)| >= |Render(a)|
  {
    RenderAppend(a, b);
  }

  /** A filter placeholder always comes with text before it (` = `), so the
      conditions are never empty text while they hold a placeholder. */
  lemma {:induction false} FilterFoldText(fs: seq<QueryFilter>, ec: EngineConstants, start: int)
    ensures ParamValues(FilterFold(fs, ec, start).pieces) != [] ==> Render(FilterFold(fs, ec, start).pieces) != ""
    decreases |fs|
  {
    if fs != [] {
      var p := FilterFold(fs[..|fs| - 1], ec, start);
      var f := fs[|fs| - 1];
      FilterFoldText(fs[..|fs| - 1], ec, start);
      var sep := Sep(p.n, AndSep);
      if !IsNil(f.value) {
        var x := sep + f.expression + " = ";
        var t := Placeholder(ec, Next(ec, p.cnt));
        ShortRuns(x, t, f.value);
        RenderAppend(p.pieces, [Lit(x), Param(t, f.value)]);
      } else {
        var x := sep + f.expression + (if f.containsValue then "" else " IS NULL");
        TextParams(p.pieces, x);
        RenderGrows(p.pieces, [Lit(x)]);
      }
    }
  }

  lemma WhereKeepsParams(cond: seq<Piece>)
    requires ParamValues(cond) != [] ==> Render(cond) != ""
    ensures ParamValues(WherePieces(cond)) == ParamValues(cond)
    ensures ParamTokens(WherePieces(cond)) == ParamTokens(cond)
  {
    if Render(cond) != "" {
      assert WherePieces(cond) == [Lit("\r\t WHERE ")] + cond;
      ShortRuns("\r\t WHERE ", "", Nil);
      ParamsAppend([Lit("\r\t WHERE ")], cond);
    } else {
      assert |ParamTokens(cond)| == |ParamValues(cond)|;
    }
  }

  // ---------------------------------------------------------------------------
  // The whole statement

  /** What follows the column list carries the placeholders of the VALUES list
      (INSERT) or of the conditions (otherwise). */
  lemma BodyParams(b: Builder, ff: Option<FilterCallback>, fixed: bool)
    ensures var rest := if b.CommandType == Insert then ValuesOf(b, fixed).pieces else ConditionsOf(b, ff, fixed).pieces;
      ParamValues(Body(b, ff, fixed)) == ParamValues(rest) && ParamTokens(Body(b, ff, fixed)) == ParamTokens(rest)
  {
    if b.CommandType == Insert {
      var ins := ValuesOf(b, fixed).pieces;
      ShortRuns(") VALUES (", "", Nil);
      ParamsAppend([Lit(") VALUES (")], ins);
      TextParams([Lit(") VALUES (")] + ins, ")");
    } else {
      var filt := FiltersOf(b);
      var cond := ConditionsOf(b, ff, fixed);
      FilterFoldText(NormalizeFilters(b.Filter), b.dbEnConst, ColumnsOf(b).cnt);
      FragmentFoldParams(CallbackOf(b, ff, fixed).fragments, filt);
      FragmentFoldRender(CallbackOf(b, ff, fixed).fragments, filt);
      RenderAppend(filt.pieces, []);
      assert Render(filt.pieces) != "" ==> Render(cond.pieces) != "";
      WhereKeepsParams(cond.pieces);
      var from := if b.CommandType == Select then [Lit(" \rFROM " + b.Source)] else [];
      ShortRuns(" \rFROM " + b.Source, "", Nil);
      ParamsAppend(from, WherePieces(cond.pieces));
    }
  }

  /** The statement's placeholders are those of the column list followed by
      those of the VALUES list (INSERT) or of the WHERE clause (otherwise). */
  lemma PiecesParams(b: Builder, ff: Option<FilterCallback>, fixed: bool)
    ensures ParamValues(Pieces(b, ff, fixed)) == ParamValues(ColumnsOf(b).pieces + Rest(b, ff, fixed).pieces)
    ensures ParamTokens(Pieces(b, ff, fixed)) == ParamTokens(ColumnsOf(b).pieces + Rest(b, ff, fixed).pieces)
    ensures ParamValues(Pieces(b, ff, fixed)) == ParamValues(ColumnsOf(b).pieces) + ParamValues(Rest(b, ff, fixed).pieces)
  {
    var cols := ColumnsOf(b).pieces;
    var head := [Lit(Header(b))];
    var body := Body(b, ff, fixed);
    var trailer := Trailer(b.order, b.group, b.ResultLimit, b.dbEnConst.ResultLimitPosition);
    var all := Pieces(b, ff, fixed);
    assert all == head + cols + body + [Lit(trailer)];
    BodyParams(b, ff, fixed);
    HeadBodyTail(Header(b), cols, body, trailer);
    ParamsAppend(cols, Rest(b, ff, fixed).pieces);
  }

  lemma HeadBodyTail(h: string, cols: seq<Piece>, body: seq<Piece>, t: string)
    ensures ParamValues([Lit(h)] + cols + body + [Lit(t)]) == ParamValues(cols) + ParamValues(body)
    ensures ParamTokens([Lit(h)] + cols + body + [Lit(t)]) == ParamTokens(cols) + ParamTokens(body)
  {
    var a := [Lit(h)] + cols;
    var c := a + body;
    assert ParamValues(a) == ParamValues(cols) && ParamTokens(a) == ParamTokens(cols) by {
      ShortRuns(h, "", Nil);
      ParamsAppend([Lit(h)], cols);
    }
    assert ParamValues(c) == ParamValues(a) + ParamValues(body) && ParamTokens(c) == ParamTokens(a) + ParamTokens(body) by {
      ParamsAppend(a, body);
    }
    assert ParamValues(c + [Lit(t)]) == ParamValues(c) && ParamTokens(c + [Lit(t)]) == ParamTokens(c) by {
      TextParams(c, t);
    }
  }

  /** The part of a build after the column list: the VALUES list of an
      INSERT, otherwise the conditions. */
  function Rest(b: Builder, ff: Option<FilterCallback>, fixed: bool): Acc
  {
    if b.CommandType == Insert then ValuesOf(b, fixed) else ConditionsOf(b, ff, fixed)
  }

  lemma ColumnsPart(b: Builder, fixed: bool)
    requires !fixed && b.CommandType == Update ==> forall i :: 0 <= i < |b.values| ==> !UsesDefault(NormalizeValue(b.values[i]))
    ensures Counted(ColumnsOf(b).pieces, ColumnsOf(b).cnt, b.dbEnConst, b.ParameterOffset)
    ensures ParamValues(ColumnsOf(b).pieces) == (if b.CommandType == Update then ColumnArgs(StoredOf(b, fixed), Update) else [])
  {
    var vals := NormalizeValues(b.values);
    assert !fixed && b.CommandType == Update ==> forall i :: 0 <= i < |vals| ==> !UsesDefault(vals[i]);
    ColumnFoldFacts(vals, b.skpNilWrCol, b.CommandType, b.dbEnConst, b.ParameterOffset, fixed);
  }

  lemma RestPart(b: Builder, ff: Option<FilterCallback>, fixed: bool)
    ensures var r := Rest(b, ff, fixed);
      Counted(r.pieces, r.cnt, b.dbEnConst, ColumnsOf(b).cnt) && r.cnt == FinalCount(b, fixed) &&
      ParamValues(r.pieces) ==
        (if b.CommandType == Insert then ColumnArgs(StoredOf(b, fixed), Insert) else FilterArgs(NormalizeFilters(b.Filter)))
  {
    var ec := b.dbEnConst;
    var start := ColumnsOf(b).cnt;
    if b.CommandType == Insert {
      var ss := StoredOf(b, fixed);
      InsertFoldFacts(ss, ec, start);
      assert Rest(b, ff, fixed) == InsertFold(ss, ec, start) == ValuesOf(b, fixed);
    } else {
      var fs := NormalizeFilters(b.Filter);
      var f := FilterFold(fs, ec, start);
      var frags := CallbackOf(b, ff, fixed).fragments;
      FilterFoldFacts(fs, ec, start);
      FragmentFoldParams(frags, f);
      assert Rest(b, ff, fixed) == FragmentFold(frags, f);
      assert f.cnt == FinalCount(b, fixed);
    }
  }

  /** The placeholder values of the column list, without the numbering. */
  lemma ColumnsArgs(b: Builder, fixed: bool)
    requires !fixed && b.CommandType == Update ==> forall i :: 0 <= i < |b.values| ==> !UsesDefault(NormalizeValue(b.values[i]))
    ensures ParamValues(ColumnsOf(b).pieces) == (if b.CommandType == Update then ColumnArgs(StoredOf(b, fixed), Update) else [])
  {
    ColumnsPart(b, fixed);
  }

  /** The placeholder values of the rest of the build, without the numbering. */
  lemma RestArgs(b: Builder, ff: Option<FilterCallback>, fixed: bool)
    ensures ParamValues(Rest(b, ff, fixed).pieces) ==
      (if b.CommandType == Insert then ColumnArgs(StoredOf(b, fixed), Insert) else FilterArgs(NormalizeFilters(b.Filter)))
  {
    RestPart(b, ff, fixed);
  }

  /** With numbered placeholders, a build numbers them consecutively from
      `ParameterOffset + 1`; the counter handed to the callback and written
      back as the new `ParameterOffset` is the old one plus the placeholders
      written, so the callback's own placeholders are not counted. */
  lemma BuildNumbersPlaceholders(b: Builder, ff: Option<FilterCallback>, fixed: bool)
    ensures NumberedFrom(Pieces(b, ff, fixed), b.dbEnConst, b.ParameterOffset)
    ensures FinalCount(b, fixed) == Advance(b.dbEnConst, b.ParameterOffset, |ParamTokens(Pieces(b, ff, fixed))|)
    ensures Validate(b).None? ==> BuildWith(b, ff, fixed).1.ParameterOffset == FinalCount(b, fixed)
  {
    var cols := ColumnsOf(b);
    var rest := Rest(b, ff, fixed);
    ColumnsPart(b, true);
    RestPart(b, ff, fixed);
    CountedAppend(cols.pieces, cols.cnt, rest.pieces, rest.cnt, b.dbEnConst, b.ParameterOffset);
    PiecesParams(b, ff, fixed);
  }

  /** Numbered runs written one after the other make one numbered run. */
  lemma CountedAppend(a: seq<Piece>, acnt: int, c: seq<Piece>, ccnt: int, ec: EngineConstants, start: int)
    requires Counted(a, acnt, ec, start) && Counted(c, ccnt, ec, acnt)
    ensures Counted(a + c, ccnt, ec, start)
  {
    ParamsAppend(a, c);
    if ec.ParameterInSequence {
      NumberedAppend(a, c, ec, start);
    } else {
      forall k | 0 <= k < |ParamTokens(a + c)|
        ensures ParamTokens(a + c)[k] == Placeholder(ec, start + k + 1)
      {
        if k < |ParamTokens(a)| {
          assert ParamTokens(a + c)[k] == ParamTokens(a)[k];
        } else {
          assert ParamTokens(a + c)[k] == ParamTokens(c)[k - |ParamTokens(a)|];
        }
      }
    }
  }

  /** SELECT and DELETE collect no column arguments. */
  lemma {:induction false} NoColumnArgsOutside(ss: seq<QueryValue>, cmd: CommandType)
    requires cmd != Insert && cmd != Update
    ensures ColumnArgs(ss, cmd) == []
    decreases |ss|
  {
    if ss != [] {
      NoColumnArgsOutside(ss[..|ss| - 1], cmd);
    }
  }

  lemma ArgsFollowPieces(b: Builder, ff: Option<FilterCallback>, fixed: bool)
    requires !fixed && b.CommandType == Update ==> forall i :: 0 <= i < |b.values| ==> !UsesDefault(NormalizeValue(b.values[i]))
    ensures var out := CallbackOf(b, ff, fixed);
      Args(b, ff, fixed) == ParamValues(Pieces(b, ff, fixed)) +
        (if |out.fragments| > 0 && (!fixed || b.CommandType != Insert) then out.args else [])
  {
    var stored := StoredOf(b, fixed);
    var fa := if b.CommandType != Insert then FilterArgs(NormalizeFilters(b.Filter)) else [];
    assert ParamValues(Pieces(b, ff, fixed)) == ColumnArgs(stored, b.CommandType) + fa by {
      PiecesParams(b, ff, fixed);
      ColumnsArgs(b, fixed);
      RestArgs(b, ff, fixed);
      if b.CommandType != Insert && b.CommandType != Update {
        NoColumnArgsOutside(stored, b.CommandType);
      }
    }
    var out := CallbackOf(b, ff, fixed);
    var tail := if |out.fragments| > 0 && (!fixed || b.CommandType != Insert) then out.args else [];
    assert Args(b, ff, fixed) == ColumnArgs(stored, b.CommandType) + fa + tail;
  }

  /** The arguments follow the placeholders: the column and filter arguments
      are exactly the values of the placeholders written, in order, and the
      callback's arguments come last whenever it returned fragments. As
      written this holds only when no UPDATE entry relies on its default. */
  lemma BuildArgsMatchPlaceholders(b: Builder, ff: Option<FilterCallback>)
    requires b.CommandType == Update ==> forall i :: 0 <= i < |b.values| ==> !UsesDefault(NormalizeValue(b.values[i]))
    ensures var out := CallbackOf(b, ff, false);
      Args(b, ff, false) == ParamValues(Pieces(b, ff, false)) + (if |out.fragments| > 0 then out.args else [])
  {
    ArgsFollowPieces(b, ff, false);
  }

  /** With the default stored and the callback's arguments kept out of INSERT,
      the arguments follow the placeholders for every builder, and the
      callback's arguments are added exactly when its fragments go into a
      WHERE clause. */
  lemma FixedBuildArgsMatchPlaceholders(b: Builder, ff: Option<FilterCallback>)
    ensures var out := CallbackOf(b, ff, true);
      Args(b, ff, true) == ParamValues(Pieces(b, ff, true)) +
        (if |out.fragments| > 0 && b.CommandType != Insert then out.args else [])
    ensures b.CommandType != Insert ==>
      Render(ConditionsOf(b, ff, true).pieces) == Render(FiltersOf(b).pieces) + FragmentText(CallbackOf(b, ff, true).fragments, FiltersOf(b).n)
  {
    ArgsFollowPieces(b, ff, true);
    FragmentFoldRender(CallbackOf(b, ff, true).fragments, FiltersOf(b));
  }

  // ---------------------------------------------------------------------------
  // Where the code as written breaks the line-up

  /** UPDATE with a nil value and a default: the placeholder is written for
      the default, but no argument is collected for it, because the default
      was resolved into a local copy only. Storing the default restores the
      argument. */
  lemma DefaultedUpdateLosesArgument()
    ensures var b := DefaultedUpdate();
      ParamValues(Pieces(b, None, false)) == [Plain(Integer(Int, 7))] &&
      Args(b, None, false) == [] &&
      Args(b, None, true) == [Plain(Integer(Int, 7))]
  {
    DefaultedUpdatePlaceholder();
    DefaultedUpdateArgLists();
  }

  /** Its statement writes one placeholder, carrying the default. */
  lemma DefaultedUpdatePlaceholder()
    ensures ParamValues(Pieces(DefaultedUpdate(), None, false)) == [Plain(Integer(Int, 7))]
  {
    var b := DefaultedUpdate();
    DefaultedUpdateArgs();
    PiecesParams(b, None, false);
    ColumnsArgs(b, true);
    RestArgs(b, None, false);
  }

  /** Its argument list: empty as written, the default once stored. */
  lemma DefaultedUpdateArgLists()
    ensures Args(DefaultedUpdate(), None, false) == []
    ensures Args(DefaultedUpdate(), None, true) == [Plain(Integer(Int, 7))]
  {
    DefaultedUpdateArgs();
  }

  /** An UPDATE of table `t` whose one entry, for column `c`, has a nil
      value, the default 7, and is written as a database string. */
  function DefaultedUpdate(): Builder
  {
    Builder("t", Update, [], "", 0, true, InitConstants(None), false, [], [],
            [QueryColumn("c", 8000)],
            [QueryValue("c", Nil, Plain(Integer(Int, 7)), Nil, true, false, false)],
            false, "", false, "")
  }

  /** Its column arguments: the default when it is stored, none when it is
      not; and it has no filter. */
  lemma DefaultedUpdateArgs()
    ensures ColumnArgs(StoredOf(DefaultedUpdate(), true), Update) == [Plain(Integer(Int, 7))]
    ensures ColumnArgs(StoredOf(DefaultedUpdate(), false), Update) == []
    ensures NormalizeFilters(DefaultedUpdate().Filter) == []
  {
    var b := DefaultedUpdate();
    var v := b.values[0];
    var n := NormalizeValue(v);
    assert NormalizeValues(b.values) == [n];
    assert n == v;
    assert StoredOf(b, true) == [Store(v, true, true)];
    assert StoredOf(b, false) == [Store(v, true, false)];
    assert ColumnArgs(StoredOf(b, true), Update) == [Plain(Integer(Int, 7))] by {
      assert StoredOf(b, true)[..0] == [];
    }
    assert ColumnArgs(StoredOf(b, false), Update) == [] by {
      assert StoredOf(b, false)[..0] == [];
    }
  }

  /** INSERT with a nil value and a default: the VALUES loop reads the
      stored entry, whose value is still nil, so it writes `NULL` and the
      default is neither written nor collected. Storing the default writes a
      placeholder for it and collects it. */
  lemma DefaultedInsertWritesNull()
    ensures var b := DefaultedInsert();
      Render(ValuesOf(b, false).pieces) == "NULL" &&
      ParamValues(Pieces(b, None, false)) == [] &&
      Args(b, None, false) == [] &&
      Render(ValuesOf(b, true).pieces) == "?" &&
      ParamValues(Pieces(b, None, true)) == [Plain(Integer(Int, 7))] &&
      Args(b, None, true) == [Plain(Integer(Int, 7))]
  {
    var b := DefaultedInsert();
    DefaultedInsertStored();
    InsertPieceValues(b, None, false);
    InsertPieceValues(b, None, true);
  }

  /** An INSERT into table `t` whose one entry, for column `c`, has a nil
      value, the default 7, and is written as a database string. */
  function DefaultedInsert(): Builder
  {
    Builder("t", Insert, [], "", 0, true, InitConstants(None), false, [], [],
            [QueryColumn("c", 8000)],
            [QueryValue("c", Nil, Plain(Integer(Int, 7)), Nil, true, false, false)],
            false, "", false, "")
  }

  /** Its stored entry: nil as written, the default once stored; the VALUES
      items and column arguments that follow from each. */
  lemma DefaultedInsertStored()
    ensures Render(ValuesOf(DefaultedInsert(), false).pieces) == "NULL"
    ensures Render(ValuesOf(DefaultedInsert(), true).pieces) == "?"
    ensures ColumnArgs(StoredOf(DefaultedInsert(), false), Insert) == []
    ensures ColumnArgs(StoredOf(DefaultedInsert(), true), Insert) == [Plain(Integer(Int, 7))]
    ensures NormalizeFilters(DefaultedInsert().Filter) == []
  {
    var b := DefaultedInsert();
    var v := b.values[0];
    assert NormalizeValues(b.values) == [v] by {
      assert NormalizeValue(v) == v;
    }
    var sf := Store(v, true, false);
    var st := Store(v, true, true);
    assert StoredOf(b, false) == [sf] && StoredOf(b, false)[..0] == [];
    assert StoredOf(b, true) == [st] && StoredOf(b, true)[..0] == [];
    var r := Resolve(v);
    assert r.effective == Plain(Integer(Int, 7)) && !r.forceNull && !r.isnl;
    assert sf.value == Nil && sf.sqlstring && !sf.skip && !sf.forceNull;
    assert st.value == Plain(Integer(Int, 7)) && st.sqlstring && !st.skip && !st.forceNull;
    assert Placeholder(b.dbEnConst, Next(b.dbEnConst, ColumnsOf(b).cnt)) == "?";
    var cnt := ColumnsOf(b).cnt;
    assert ValuesOf(b, false).pieces == [Lit("NULL")] by {
      assert ValuesOf(b, false) == InsertStep(Acc([], cnt, 0), sf, b.dbEnConst);
      assert IsNil(sf.value) && !Omitted(sf);
      assert Sep(0, ",") + "NULL" == "NULL";
    }
    assert ValuesOf(b, true).pieces == [Lit(""), Param("?", Plain(Integer(Int, 7)))] by {
      assert ValuesOf(b, true) == InsertStep(Acc([], cnt, 0), st, b.dbEnConst);
    }
  }

  /** The placeholders of an INSERT carry exactly its column arguments. */
  lemma InsertPieceValues(b: Builder, ff: Option<FilterCallback>, fixed: bool)
    requires b.CommandType == Insert
    ensures ParamValues(Pieces(b, ff, fixed)) == ColumnArgs(StoredOf(b, fixed), Insert)
  {
    PiecesParams(b, ff, fixed);
    ColumnsArgs(b, fixed);
    RestArgs(b, ff, fixed);
  }

  /** INSERT with a callback: the callback's fragments are never written (an
      INSERT has no WHERE clause), yet its arguments are appended, so the
      argument list holds a value no placeholder stands for. Keeping the
      callback's arguments out of INSERT restores the line-up. */
  lemma InsertCallbackArgumentUnmatched()
    ensures var b := Builder("t", Insert, [], "", 0, true, InitConstants(None), false, [], [],
                             [QueryColumn("c", 8000)],
                             [QueryValue("c", Plain(Str("now()")), Nil, Nil, false, false, false)],
                             false, "", false, "");
      var ff: Option<FilterCallback> := Some((o: int, pc: string, seqd: bool) => FilterOutput(["x = ?"], [Plain(Integer(Int, 5))]));
      ParamValues(Pieces(b, ff, false)) == [] &&
      Args(b, ff, false) == [Plain(Integer(Int, 5))] &&
      Args(b, ff, true) == []
  {
    var v := QueryValue("c", Plain(Str("now()")), Nil, Nil, false, false, false);
    var b := Builder("t", Insert, [], "", 0, true, InitConstants(None), false, [], [],
                     [QueryColumn("c", 8000)], [v], false, "", false, "");
    var ff: Option<FilterCallback> := Some((o: int, pc: string, seqd: bool) => FilterOutput(["x = ?"], [Plain(Integer(Int, 5))]));
    assert NormalizeValues(b.values) == [v] by {
      assert NormalizeValue(v) == v;
    }
    assert ColumnArgs(StoredOf(b, false), Insert) == [] by {
      assert StoredOf(b, false) == [Store(v, true, false)];
      assert StoredOf(b, false)[..0] == [];
    }
    assert ColumnArgs(StoredOf(b, true), Insert) == [] by {
      assert StoredOf(b, true) == [Store(v, true, true)];
      assert StoredOf(b, true)[..0] == [];
    }
    var out := FilterOutput(["x = ?"], [Plain(Integer(Int, 5))]);
    assert CallbackOf(b, ff, false) == out;
    assert ParamValues(Pieces(b, ff, false)) == [] by {
      InsertPieceValues(b, ff, false);
    }
    assert Args(b, ff, false) == [] + [] + out.args;
    assert Args(b, ff, true) == [] + [] + [];
  }

  // ---------------------------------------------------------------------------
  // The shape of each command

  /** One SELECT column step writes the entry's name after the separator. */
  lemma SelectStepText(a: Acc, e: QueryValue, skpNil: bool, ec: EngineConstants)
    ensures var q := ColumnStep(a, e, skpNil, Select, ec);
      Render(q.pieces) == Render(a.pieces) + Sep(a.n, ", ") + e.column && q.cnt == a.cnt && q.n == a.n + 1
  {
    RenderSnoc(a.pieces, Sep(a.n, ", ") + e.column, "", Nil);
  }

  /** The joined names of a non-empty list of entries: those of all but the
      last, then the separator and the last name. */
  lemma JoinNamesSnoc(es: seq<QueryValue>, sep: string)
    requires es != []
    ensures Join(ValueNames(es), sep) == Join(ValueNames(es[..|es| - 1]), sep) + Sep(|es| - 1, sep) + es[|es| - 1].column
  {
    assert ValueNames(es) == ValueNames(es[..|es| - 1]) + [es[|es| - 1].column];
    JoinSnoc(ValueNames(es[..|es| - 1]), es[|es| - 1].column, sep);
  }

  /** SELECT lists every entry's name, skipped or not, comma-separated, and
      writes no placeholder there. */
  lemma {:induction false} SelectListsEveryEntry(es: seq<QueryValue>, skpNil: bool, ec: EngineConstants, start: int)
    ensures Render(ColumnFold(es, skpNil, Select, ec, start).pieces) == Join(ValueNames(es), ", ")
    ensures ColumnFold(es, skpNil, Select, ec, start).cnt == start
    ensures ColumnFold(es, skpNil, Select, ec, start).n == |es|
    decreases |es|
  {
    if es != [] {
      var init := es[..|es| - 1];
      SelectListsEveryEntry(init, skpNil, ec, start);
      SelectStepText(ColumnFold(init, skpNil, Select, ec, start), es[|es| - 1], skpNil, ec);
      JoinNamesSnoc(es, ", ");
    }
  }

  /** DELETE writes no column text, whatever entries were registered. */
  lemma {:induction false} DeleteWritesNoColumns(es: seq<QueryValue>, skpNil: bool, ec: EngineConstants, start: int)
    ensures ColumnFold(es, skpNil, Delete, ec, start) == Acc([], start, 0)
    decreases |es|
  {
    if es != [] {
      DeleteWritesNoColumns(es[..|es| - 1], skpNil, ec, start);
    }
  }

  /** The names of the stored entries that INSERT and UPDATE write. */
  function KeptNames(ss: seq<QueryValue>): seq<string>
  {
    if ss == [] then []
    else KeptNames(ss[..|ss| - 1]) + (if Omitted(ss[|ss| - 1]) then [] else [ss[|ss| - 1].column])
  }

  /** One entry of the INSERT or UPDATE column loop: nothing when the stored
      entry is left out, otherwise one more item (for INSERT, the name). */
  lemma KeptStep(a: Acc, e: QueryValue, skpNil: bool, cmd: CommandType, ec: EngineConstants, fixed: bool)
    requires cmd == Insert || cmd == Update
    ensures Omitted(Store(e, skpNil, fixed)) ==> ColumnStep(a, e, skpNil, cmd, ec) == a
    ensures !Omitted(Store(e, skpNil, fixed)) ==> ColumnStep(a, e, skpNil, cmd, ec).n == a.n + 1
    ensures !Omitted(Store(e, skpNil, fixed)) && cmd == Insert ==>
      ColumnStep(a, e, skpNil, cmd, ec) == Acc(a.pieces + [Lit(Sep(a.n, ", ") + e.column)], a.cnt, a.n + 1)
  {
  }

  /** The text one INSERT column step adds. */
  lemma InsertColumnText(a: Acc, e: QueryValue, skpNil: bool, ec: EngineConstants, fixed: bool)
    ensures Render(ColumnStep(a, e, skpNil, Insert, ec).pieces) ==
      Render(a.pieces) + (if Omitted(Store(e, skpNil, fixed)) then "" else Sep(a.n, ", ") + e.column)
    ensures ColumnStep(a, e, skpNil, Insert, ec).n == a.n + (if Omitted(Store(e, skpNil, fixed)) then 0 else 1)
  {
    KeptStep(a, e, skpNil, Insert, ec, fixed);
    if !Omitted(Store(e, skpNil, fixed)) {
      var x := Sep(a.n, ", ") + e.column;
      ShortRuns(x, "", Nil);
      RenderAppend(a.pieces, [Lit(x)]);
    }
  }

  /** The kept names of the resolved entries grow by the last entry's name,
      unless that entry is left out. */
  lemma KeptNamesSnoc(es: seq<QueryValue>, skpNil: bool, fixed: bool)
    requires es != []
    ensures KeptNames(ResolveAll(es, skpNil, fixed)) ==
      KeptNames(ResolveAll(es[..|es| - 1], skpNil, fixed)) +
      (if Omitted(Store(es[|es| - 1], skpNil, fixed)) then [] else [es[|es| - 1].column])
  {
    var stored := ResolveAll(es, skpNil, fixed);
    assert stored[..|stored| - 1] == ResolveAll(es[..|es| - 1], skpNil, fixed);
  }

  /** INSERT lists exactly the entries not left out (skipped and not forced),
      in order, comma-separated. */
  lemma {:induction false} InsertListsKeptEntries(es: seq<QueryValue>, skpNil: bool, ec: EngineConstants,
                                                  start: int, fixed: bool)
    ensures Render(ColumnFold(es, skpNil, Insert, ec, start).pieces) == Join(KeptNames(ResolveAll(es, skpNil, fixed)), ", ")
    ensures ColumnFold(es, skpNil, Insert, ec, start).n == |KeptNames(ResolveAll(es, skpNil, fixed))|
    decreases |es|
  {
    if es != [] {
      var init := es[..|es| - 1];
      var e := es[|es| - 1];
      InsertListsKeptEntries(init, skpNil, ec, start, fixed);
      InsertColumnText(ColumnFold(init, skpNil, Insert, ec, start), e, skpNil, ec, fixed);
      KeptNamesSnoc(es, skpNil, fixed);
      var kn := KeptNames(ResolveAll(init, skpNil, fixed));
      if !Omitted(Store(e, skpNil, fixed)) {
        JoinSnoc(kn, e.column, ", ");
      } else {
        assert kn + [] == kn;
      }
    }
  }

  /** UPDATE writes one `column = ...` item for each entry not left out. */
  lemma {:induction false} UpdateWritesKeptEntries(es: seq<QueryValue>, skpNil: bool, ec: EngineConstants,
                                                   start: int, fixed: bool)
    ensures ColumnFold(es, skpNil, Update, ec, start).n == |KeptNames(ResolveAll(es, skpNil, fixed))|
    decreases |es|
  {
    if es != [] {
      var init := es[..|es| - 1];
      var e := es[|es| - 1];
      UpdateWritesKeptEntries(init, skpNil, ec, start, fixed);
      var stored := ResolveAll(es, skpNil, fixed);
      assert stored[..|stored| - 1] == ResolveAll(init, skpNil, fixed);
      KeptStep(ColumnFold(init, skpNil, Update, ec, start), e, skpNil, Update, ec, fixed);
    }
  }

  /** The item UPDATE writes for an entry as the column loop resolved it:
      `column = NULL` for a nil or forced value, `column = <placeholder>`
      for an SQL string, and the value written out as text otherwise. */
  function UpdateItem(s: QueryValue, token: string): string
  {
    s.column + " = " +
    (if IsNil(s.value) || s.forceNull then "NULL" else if s.sqlstring then token else UpdateLiteral(s.value))
  }

  /** An entry UPDATE writes with a placeholder. */
  predicate WritesPlaceholder(s: QueryValue)
  {
    !Omitted(s) && !IsNil(s.value) && !s.forceNull && s.sqlstring
  }

  function PlaceholderCount(ss: seq<QueryValue>): nat
  {
    if ss == [] then 0
    else PlaceholderCount(ss[..|ss| - 1]) + (if WritesPlaceholder(ss[|ss| - 1]) then 1 else 0)
  }

  /** The UPDATE items of the entries not left out, in order, the k-th
      placeholder numbered k after the starting counter. */
  function UpdateItems(ss: seq<QueryValue>, ec: EngineConstants, start: int): seq<string>
  {
    if ss == [] then []
    else
      var init := ss[..|ss| - 1];
      var s := ss[|ss| - 1];
      UpdateItems(init, ec, start) +
      (if Omitted(s) then [] else [UpdateItem(s, Placeholder(ec, Advance(ec, start, PlaceholderCount(init) + 1)))])
  }

  /** The text one UPDATE column step adds, and how it moves the counter. */
  lemma UpdateColumnText(a: Acc, e: QueryValue, skpNil: bool, ec: EngineConstants)
    ensures var s := Store(e, skpNil, true);
      Render(ColumnStep(a, e, skpNil, Update, ec).pieces) ==
        Render(a.pieces) + (if Omitted(s) then "" else Sep(a.n, ", ") + UpdateItem(s, Placeholder(ec, Next(ec, a.cnt))))
    ensures var s := Store(e, skpNil, true);
      ColumnStep(a, e, skpNil, Update, ec).cnt == (if WritesPlaceholder(s) then Next(ec, a.cnt) else a.cnt)
    ensures ColumnStep(a, e, skpNil, Update, ec).n == a.n + (if Omitted(Store(e, skpNil, true)) then 0 else 1)
  {
    var s := Store(e, skpNil, true);
    var r := Resolve(e);
    var sep := Sep(a.n, ", ");
    var tok := Placeholder(ec, Next(ec, a.cnt));
    KeptStep(a, e, skpNil, Update, ec, true);
    if !Omitted(s) {
      var c := ColumnStep(a, e, skpNil, Update, ec);
      if r.isnl {
        RenderSnoc(a.pieces, sep + e.column + " = NULL", "", Nil);
        AppendAssoc(sep, e.column, " = NULL");
        AppendAssoc(e.column, " = ", "NULL");
        AppendAssoc(Render(a.pieces), sep, UpdateItem(s, tok));
      } else if e.sqlstring {
        RenderSnoc(a.pieces, sep + e.column + " = ", tok, r.effective);
        AppendAssoc(sep, e.column, " = ");
        AppendAssoc(Render(a.pieces), sep + (e.column + " = "), tok);
        AppendAssoc(sep, e.column + " = ", tok);
      } else {
        var lit := UpdateLiteral(r.effective);
        RenderSnoc(a.pieces, sep + e.column + " = " + lit, "", Nil);
        AppendAssoc(sep, e.column, " = ");
        AppendAssoc(sep, e.column + " = ", lit);
        AppendAssoc(Render(a.pieces), sep, UpdateItem(s, tok));
      }
    }
  }

  /** The UPDATE items and placeholder count of the resolved entries grow by
      the last entry's. */
  lemma UpdateItemsSnoc(es: seq<QueryValue>, skpNil: bool, ec: EngineConstants, start: int)
    requires es != []
    ensures var si := ResolveAll(es[..|es| - 1], skpNil, true);
      var s := Store(es[|es| - 1], skpNil, true);
      UpdateItems(ResolveAll(es, skpNil, true), ec, start) == UpdateItems(si, ec, start) +
        (if Omitted(s) then [] else [UpdateItem(s, Placeholder(ec, Advance(ec, start, PlaceholderCount(si) + 1)))])
    ensures PlaceholderCount(ResolveAll(es, skpNil, true)) ==
      PlaceholderCount(ResolveAll(es[..|es| - 1], skpNil, true)) + (if WritesPlaceholder(Store(es[|es| - 1], skpNil, true)) then 1 else 0)
  {
    var ss := ResolveAll(es, skpNil, true);
    assert ss[..|ss| - 1] == ResolveAll(es[..|es| - 1], skpNil, true);
  }

  /** The UPDATE column loop's counter and item count. */
  lemma {:induction false} UpdateCountsKept(es: seq<QueryValue>, skpNil: bool, ec: EngineConstants, start: int)
    ensures ColumnFold(es, skpNil, Update, ec, start).cnt == Advance(ec, start, PlaceholderCount(ResolveAll(es, skpNil, true)))
    ensures ColumnFold(es, skpNil, Update, ec, start).n == |UpdateItems(ResolveAll(es, skpNil, true), ec, start)|
    decreases |es|
  {
    if es != [] {
      var init := es[..|es| - 1];
      UpdateCountsKept(init, skpNil, ec, start);
      UpdateColumnText(ColumnFold(init, skpNil, Update, ec, start), es[|es| - 1], skpNil, ec);
      UpdateItemsSnoc(es, skpNil, ec, start);
    }
  }

  /** Appending an item, or nothing, to a joined list. */
  lemma JoinStep(items: seq<string>, prev: string, x: string, kept: bool, out: string)
    requires prev == Join(items, ", ")
    requires out == prev + (if kept then Sep(|items|, ", ") + x else "")
    ensures out == Join(items + (if kept then [x] else []), ", ")
  {
    if kept {
      JoinSnoc(items, x, ", ");
    } else {
      assert items + [] == items;
    }
  }

  /** UPDATE writes, comma-separated and in order, the item of each entry not
      left out, its k-th placeholder numbered k after the starting counter. */
  lemma {:induction false} UpdateListsKeptItems(es: seq<QueryValue>, skpNil: bool, ec: EngineConstants, start: int)
    ensures Render(ColumnFold(es, skpNil, Update, ec, start).pieces) ==
      Join(UpdateItems(ResolveAll(es, skpNil, true), ec, start), ", ")
    decreases |es|
  {
    if es != [] {
      var init := es[..|es| - 1];
      var e := es[|es| - 1];
      var si := ResolveAll(init, skpNil, true);
      var items := UpdateItems(si, ec, start);
      var a := ColumnFold(init, skpNil, Update, ec, start);
      var s := Store(e, skpNil, true);
      UpdateListsKeptItems(init, skpNil, ec, start);
      UpdateCountsKept(init, skpNil, ec, start);
      UpdateColumnText(a, e, skpNil, ec);
      UpdateItemsSnoc(es, skpNil, ec, start);
      var out := Render(ColumnFold(es, skpNil, Update, ec, start).pieces);
      var all := UpdateItems(ResolveAll(es, skpNil, true), ec, start);
      if Omitted(s) {
        assert all == items + [];
        JoinStep(items, Render(a.pieces), "", false, out);
      } else {
        var x := UpdateItem(s, Placeholder(ec, Next(ec, a.cnt)));
        assert Next(ec, a.cnt) == Advance(ec, start, PlaceholderCount(si) + 1);
        assert all == items + [x];
        JoinStep(items, Render(a.pieces), x, true, out);
      }
    }
  }

  /** The INSERT VALUES list has one item per entry not left out, so it has
      exactly as many items as the column list (the slots the source sizes
      its item array with). */
  lemma {:induction false} InsertValuesMatchColumns(ss: seq<QueryValue>, ec: EngineConstants, start: int)
    ensures InsertFold(ss, ec, start).n == |KeptNames(ss)|
    decreases |ss|
  {
    if ss != [] {
      InsertValuesMatchColumns(ss[..|ss| - 1], ec, start);
    }
  }

  /** A value equal to its match-to-null value is forced to NULL: never left
      out, marked as an SQL string, written as `NULL` by INSERT and UPDATE,
      and never an argument. */
  lemma ForcedNullWrittenAsNull(e: QueryValue, skpNil: bool, fixed: bool, a: Acc, ec: EngineConstants)
    requires !IsNil(e.value) && !IsNil(e.matchToNull) && GoEqual(e.matchToNull, e.value)
    ensures var s := Store(e, skpNil, fixed);
      s.forceNull && !Omitted(s) && s.sqlstring &&
      ColumnArg(s, Insert) == [] && ColumnArg(s, Update) == [] &&
      InsertStep(a, s, ec) == Acc(a.pieces + [Lit(Sep(a.n, ",") + "NULL")], a.cnt, a.n + 1) &&
      ColumnStep(a, e, skpNil, Update, ec) == Acc(a.pieces + [Lit(Sep(a.n, ", ") + e.column + " = NULL")], a.cnt, a.n + 1)
  {
  }

  /** With skip-nil on, an entry with no value and no default is left out of
      INSERT and UPDATE altogether and contributes no argument. */
  lemma NilWithoutDefaultLeftOut(e: QueryValue, fixed: bool, a: Acc, ec: EngineConstants)
    requires IsNil(e.value) && IsNil(e.defValue)
    ensures var s := Store(e, true, fixed);
      Omitted(s) && ColumnArg(s, Insert) == [] && ColumnArg(s, Update) == [] &&
      InsertStep(a, s, ec) == a && ColumnStep(a, e, true, Insert, ec) == a && ColumnStep(a, e, true, Update, ec) == a
  {
  }

  /** A nil value falls back to its default in the column loop: the
      match-to-null test, and whether UPDATE writes a placeholder or text.
      The INSERT VALUES loop reads the stored entry instead, which as
      written still holds the nil value (see `DefaultedInsertWritesNull`). */
  lemma DefaultTakesOver(e: QueryValue, skpNil: bool, a: Acc, ec: EngineConstants)
    requires IsNil(e.value) && !IsNil(e.defValue)
    ensures Resolve(e).effective == e.defValue
    ensures Resolve(e).forceNull <==> !IsNil(e.matchToNull) && GoEqual(e.matchToNull, e.defValue)
    ensures !Resolve(e).forceNull && e.sqlstring ==>
      ColumnStep(a, e, skpNil, Update, ec).pieces == a.pieces + [Lit(Sep(a.n, ", ") + e.column + " = "), Param(Placeholder(ec, Next(ec, a.cnt)), e.defValue)]
  {
  }

  /** The WHERE clause: absent when there are no filters and the callback
      adds no fragment; present whenever a filter has a value. */
  lemma WhereOnlyWithConditions(b: Builder, ff: Option<FilterCallback>, fixed: bool)
    requires b.CommandType != Insert
    ensures |b.Filter| == 0 && |CallbackOf(b, ff, fixed).fragments| == 0 ==> WherePieces(ConditionsOf(b, ff, fixed).pieces) == []
    ensures FilterArgs(NormalizeFilters(b.Filter)) != [] ==> WherePieces(ConditionsOf(b, ff, fixed).pieces) != []
  {
    var fs := NormalizeFilters(b.Filter);
    var filt := FiltersOf(b);
    FilterFoldFacts(fs, b.dbEnConst, ColumnsOf(b).cnt);
    FilterFoldText(fs, b.dbEnConst, ColumnsOf(b).cnt);
    FragmentFoldRender(CallbackOf(b, ff, fixed).fragments, filt);
    if |b.Filter| == 0 && |CallbackOf(b, ff, fixed).fragments| == 0 {
      assert fs == [];
    }
  }

  // ---------------------------------------------------------------------------
  // The statement's text, stage by stage

  /** What follows the column list, as text. */
  lemma BodyText(b: Builder, ff: Option<FilterCallback>, fixed: bool)
    ensures var cond := Render(ConditionsOf(b, ff, fixed).pieces);
      Render(Body(b, ff, fixed)) ==
      if b.CommandType == Insert then ") VALUES (" + Render(ValuesOf(b, fixed).pieces) + ")"
      else (if b.CommandType == Select then " \rFROM " + b.Source else "") +
           (if cond != "" then "\r\t WHERE " + cond else "")
  {
    if b.CommandType == Insert {
      EnclosedText(") VALUES (", ValuesOf(b, fixed).pieces, ")");
    } else {
      var from := if b.CommandType == Select then [Lit(" \rFROM " + b.Source)] else [];
      ShortRuns(" \rFROM " + b.Source, "", Nil);
      WhereText(from, ConditionsOf(b, ff, fixed).pieces);
    }
  }

  /** The WHERE clause renders only when the conditions render to some text. */
  lemma WhereText(from: seq<Piece>, cond: seq<Piece>)
    ensures Render(from + WherePieces(cond)) ==
      Render(from) + (if Render(cond) != "" then "\r\t WHERE " + Render(cond) else "")
  {
    ShortRuns("\r\t WHERE ", "", Nil);
    RenderAppend([Lit("\r\t WHERE ")], cond);
    RenderAppend(from, WherePieces(cond));
  }

  /** The statement reads: head, column list, body, trailer. */
  lemma PiecesText(b: Builder, ff: Option<FilterCallback>, fixed: bool)
    ensures Render(Pieces(b, ff, fixed)) ==
      Header(b) + Render(ColumnsOf(b).pieces) + Render(Body(b, ff, fixed)) +
      Trailer(b.order, b.group, b.ResultLimit, b.dbEnConst.ResultLimitPosition)
  {
    var h := Header(b);
    var cols := ColumnsOf(b).pieces;
    var body := Body(b, ff, fixed);
    assert Render([Lit(h)] + cols) == h + Render(cols) by {
      ShortRuns(h, "", Nil);
      RenderAppend([Lit(h)], cols);
    }
    RenderAppend([Lit(h)] + cols, body);
    RenderSnoc([Lit(h)] + cols + body, Trailer(b.order, b.group, b.ResultLimit, b.dbEnConst.ResultLimitPosition), "", Nil);
  }

  /** A prefix of the entries keeps no more of them than the whole list. */
  lemma {:induction false} KeptNamesPrefix(ss: seq<QueryValue>, i: nat)
    requires i <= |ss|
    ensures |KeptNames(ss[..i])| <= |KeptNames(ss)|
    decreases |ss|
  {
    if i < |ss| {
      var init := ss[..|ss| - 1];
      assert ss[..i] == init[..i];
      KeptNamesPrefix(init, i);
    } else {
      assert ss[..i] == ss;
    }
  }

  /** The INSERT VALUES loop after one more entry. */
  lemma InsertFoldSnoc(vs: seq<QueryValue>, i: nat, ec: EngineConstants, start: int)
    requires i < |vs|
    ensures InsertFold(vs[..i + 1], ec, start) == InsertStep(InsertFold(vs[..i], ec, start), vs[i], ec)
    ensures KeptNames(vs[..i + 1]) == KeptNames(vs[..i]) + (if Omitted(vs[i]) then [] else [vs[i].column])
    ensures |KeptNames(vs[..i + 1])| <= |KeptNames(vs)|
  {
    assert vs[..i + 1][..i] == vs[..i];
    KeptNamesPrefix(vs, i + 1);
  }

  /** The filter loop after one more condition. */
  lemma FilterFoldSnoc(fs: seq<QueryFilter>, i: nat, ec: EngineConstants, start: int)
    requires i < |fs|
    ensures FilterFold(fs[..i + 1], ec, start) == FilterStep(FilterFold(fs[..i], ec, start), fs[i], ec)
  {
    assert fs[..i + 1][..i] == fs[..i];
  }

  /** The fragment loop after one more fragment. */
  lemma FragmentFoldSnoc(fbs: seq<string>, j: nat, f: Acc)
    requires j < |fbs|
    ensures var a := FragmentFold(fbs[..j], f);
      FragmentFold(fbs[..j + 1], f) == Acc(a.pieces + [Lit(Sep(a.n, AndSep) + fbs[j])], a.cnt, a.n + 1)
  {
    assert fbs[..j + 1][..j] == fbs[..j];
  }

  /** The entries while the column loop runs: the first `k` resolved, the
      rest as they were. */
  function PartlyResolved(vs: seq<QueryValue>, k: nat, skpNil: bool, fixed: bool): (r: seq<QueryValue>)
    ensures |r| == |vs|
  {
    seq(|vs|, j requires 0 <= j < |vs| => if j < k then Store(vs[j], skpNil, fixed) else vs[j])
  }

  /** Before the loop nothing is resolved; after it everything is. */
  lemma PartlyResolvedEnds(vs: seq<QueryValue>, skpNil: bool, fixed: bool)
    ensures PartlyResolved(vs, 0, skpNil, fixed) == vs
    ensures PartlyResolved(vs, |vs|, skpNil, fixed) == ResolveAll(vs, skpNil, fixed)
  {
  }

  /** Resolving one more entry in place, as the column loop does. */
  lemma PartlyResolvedStep(vs: seq<QueryValue>, idx: nat, skpNil: bool, fixed: bool)
    requires idx < |vs|
    ensures var cur := PartlyResolved(vs, idx, skpNil, fixed);
      cur[idx] == vs[idx] &&
      cur[idx := Store(vs[idx], skpNil, fixed)] == PartlyResolved(vs, idx + 1, skpNil, fixed)
  {
  }

  /** A build keeps the registry invariant: normalising and resolving the
      entries keeps their names, and the columns are not touched. */
  lemma BuildKeepsLockstep(b: Builder, ff: Option<FilterCallback>, fixed: bool)
    requires Lockstep(b.columns, b.values)
    ensures var after := BuildWith(b, ff, fixed).1;
      Lockstep(after.columns, after.values) && after.columns == b.columns
  {
    var after := BuildWith(b, ff, fixed).1;
    if Validate(b) == None {
      assert after.values == ResolveAll(NormalizeValues(b.values), b.skpNilWrCol, fixed);
    }
  }
}
