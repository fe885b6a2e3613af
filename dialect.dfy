/** What the builders know about the database engine: the command kinds,
    sort directions and limit positions, the v2 engine constants with their
    defaults, and the small helpers that depend on them. */
module Dialect {
  import opened Values
  import opened Text

  datatype CommandType = Select | Insert | Update | Delete

  datatype Sort = Asc | Desc

  /** Where the row limit goes: `TOP n` after SELECT, or `LIMIT n` at the end. */
  datatype Limit = Front | Rear

  datatype QuerySort = QuerySort(column: string, order: Sort)

  datatype EngineConstants = EngineConstants(
    StringEnclosingChar: string,
    StringEscapeChar: string,
    ReservedWordEscapeChar: string,
    ParameterChar: string,
    ParameterInSequence: bool,
    ResultLimitPosition: Limit)

  /** The engine settings of the database configuration; an absent pointer
      field is `None`. */
  datatype DataInfo = DataInfo(
    StringEnclosingChar: Option<string>,
    StringEscapeChar: Option<string>,
    ParameterPlaceHolder: Option<string>,
    ReservedWordEscapeChar: Option<string>,
    ParameterInSequence: Option<bool>,
    ResultLimitPosition: Limit)

  /** A configured text setting wins when it is present and not empty. */
  function Override(setting: Option<string>, default: string): string
  {
    if setting.Some? && setting.value != "" then setting.value else default
  }

  /** `InitConstants`: the defaults (`'`, `\`, `"`, `?`, unnumbered, limit
      at the rear), each replaced by the configuration's setting where one
      is given. */
  function InitConstants(di: Option<DataInfo>): (ec: EngineConstants)
    ensures di.None? ==> ec == EngineConstants("'", "\\", "\"", "?", false, Rear)
    ensures ec.StringEnclosingChar != "" && ec.StringEscapeChar != ""
    ensures ec.ReservedWordEscapeChar != "" && ec.ParameterChar != ""
    ensures di.Some? ==>
      ec.StringEnclosingChar == Override(di.value.StringEnclosingChar, "'") &&
      ec.StringEscapeChar == Override(di.value.StringEscapeChar, "\\") &&
      ec.ReservedWordEscapeChar == Override(di.value.ReservedWordEscapeChar, "\"") &&
      ec.ParameterChar == Override(di.value.ParameterPlaceHolder, "?")
    ensures di.Some? && di.value.ParameterPlaceHolder.Some? && di.value.ParameterPlaceHolder.value != ""
      ==> ec.ParameterChar == di.value.ParameterPlaceHolder.value
    ensures di.Some? && di.value.ParameterInSequence.Some?
      ==> ec.ParameterInSequence == di.value.ParameterInSequence.value
    ensures di.Some? && di.value.ParameterInSequence.None? ==> !ec.ParameterInSequence
    ensures di.Some? ==> ec.ResultLimitPosition == di.value.ResultLimitPosition
  {
    match di
    case None => EngineConstants("'", "\\", "\"", "?", false, Rear)
    case Some(d) =>
      EngineConstants(
        Override(d.StringEnclosingChar, "'"),
        Override(d.StringEscapeChar, "\\"),
        Override(d.ReservedWordEscapeChar, "\""),
        Override(d.ParameterPlaceHolder, "?"),
        if d.ParameterInSequence.Some? then d.ParameterInSequence.value else false,
        d.ResultLimitPosition)
  }

  /** `ParseReserveWordsChars`: the opening and closing reserved-word escape. */
  function ParseReserveWordsChars(ec: string): (r: seq<string>)
    ensures |r| == 2 && |r[0]| == 1 && |r[1]| == 1
    ensures ec == "" ==> r == ["\"", "\""]
    ensures ec != "" ==> r[0] == ec[..1]
    ensures |ec| == 1 ==> r[1] == ec
    ensures |ec| >= 2 ==> r == [ec[..1], ec[1..2]]
    ensures |ec| == 2 ==> r[0] + r[1] == ec
  {
    if |ec| == 1 then [ec, ec]
    else if |ec| >= 2 then [ec[0..1], ec[1..2]]
    else ["\"", "\""]
  }

  /** `Escape` (v2) and `CleanStringValue` (v1): every enclosing string is
      preceded by the escape string; the empty text is left alone. */
  function Escape(enclosing: string, escape: string, value: string): string
  {
    if |value| > 0 then ReplaceAll(value, enclosing, escape + enclosing) else value
  }

  /** With one-character settings, escaping can be undone: the escaped text
      reads back as the original, and it is longer by one escape per
      enclosing character. */
  lemma EscapeRoundTrip(e: char, d: char, value: string)
    ensures Unescape(Escape([e], [d], value), e, d) == value
    ensures |Escape([e], [d], value)| == |value| + Count(value, e)
  {
    if |value| > 0 {
      ReplaceSingleChar(value, e, [d]);
      UnescapeEscape(value, e, d);
      EscapeCharsLength(value, e, [d]);
    }
  }

  /** The round trip for settings given as text: it holds whenever both the
      enclosing and the escape setting are one character long. */
  lemma EscapeSettingsRoundTrip(enclosing: string, escape: string, value: string)
    ensures |enclosing| == 1 && |escape| == 1 ==>
      Unescape(Escape(enclosing, escape, value), enclosing[0], escape[0]) == value
  {
    if |enclosing| == 1 && |escape| == 1 {
      assert [enclosing[0]] == enclosing && [escape[0]] == escape;
      EscapeRoundTrip(enclosing[0], escape[0], value);
    }
  }


  /** The placeholder for the parameter numbered `n`: the parameter character,
      followed by the number when parameters are numbered. */
  function Placeholder(ec: EngineConstants, n: int): string
  {
    ec.ParameterChar + (if ec.ParameterInSequence then IntToString(n) else "")
  }

  /** The counter after emitting one placeholder: it only moves when
      parameters are numbered. */
  function Next(ec: EngineConstants, cnt: int): int
  {
    if ec.ParameterInSequence then cnt + 1 else cnt
  }

  /** The counter after `k` placeholders. */
  function Advance(ec: EngineConstants, cnt: int, k: nat): int
  {
    if ec.ParameterInSequence then cnt + k else cnt
  }

  /** Numbered placeholders never collide. */
  lemma PlaceholdersDistinct(ec: EngineConstants, m: int, n: int)
    requires ec.ParameterInSequence && m != n
    ensures Placeholder(ec, m) != Placeholder(ec, n)
  {
    if Placeholder(ec, m) == Placeholder(ec, n) {
      var p := ec.ParameterChar;
      assert Placeholder(ec, m)[|p|..] == IntToString(m);
      assert Placeholder(ec, n)[|p|..] == IntToString(n);
      IntToStringInjective(m, n);
    }
  }

  /** The ORDER BY items: each column with its direction, comma-separated. */
  function OrderItems(os: seq<QuerySort>): string
  {
    if os == [] then ""
    else
      var last := os[|os| - 1];
      OrderItems(os[..|os| - 1]) + Sep(|os| - 1, ", ") + last.column + (if last.order == Asc then " ASC" else " DESC")
  }

  /** The end of every statement, in both builders: ORDER BY, then GROUP BY,
      then a rear LIMIT, then the semicolon. */
  function Trailer(order: seq<QuerySort>, group: seq<string>, limit: string, position: Limit): (r: string)
    ensures |r| > 0 && r[|r| - 1] == ';'
  {
    (if |order| > 0 then " ORDER BY " + OrderItems(order) else "") +
    (if |group| > 0 then " GROUP BY " + Join(group, ", ") else "") +
    (if |limit| > 0 && position == Rear then " LIMIT " + limit else "") +
    ";"
  }

  /** The SELECT keyword with a front limit (`TOP n`) when the limit goes there. */
  function SelectHead(distinct: bool, limit: string, position: Limit): string
  {
    "SELECT " + (if distinct then "DISTINCT " else "") +
    (if |limit| > 0 && position == Front then " TOP " + limit + " " else "")
  }
}
