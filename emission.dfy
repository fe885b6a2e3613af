/** What a builder writes, seen as a sequence of pieces: literal SQL text, or
    a parameter placeholder together with the value the writing code had in
    hand when it wrote it. Rendering gives the SQL text; the placeholder
    values, in order, are what the argument list has to match. */
module Emission {
  import opened Values
  import opened Dialect
  import Text

  datatype Piece = Lit(text: string) | Param(token: string, value: Input)

  function Render(ps: seq<Piece>): string
  {
    if ps == [] then ""
    else Render(ps[..|ps| - 1]) + (match ps[|ps| - 1] case Lit(t) => t case Param(tok, _) => tok)
  }

  /** The values whose placeholders were written, in writing order. */
  function ParamValues(ps: seq<Piece>): seq<Input>
  {
    if ps == [] then []
    else ParamValues(ps[..|ps| - 1]) + (if ps[|ps| - 1].Param? then [ps[|ps| - 1].value] else [])
  }

  /** The placeholder texts, in writing order. */
  function ParamTokens(ps: seq<Piece>): (r: seq<string>)
    ensures |r| == |ParamValues(ps)|
  {
    if ps == [] then []
    else ParamTokens(ps[..|ps| - 1]) + (if ps[|ps| - 1].Param? then [ps[|ps| - 1].token] else [])
  }

  lemma {:induction false} RenderAppend(a: seq<Piece>, b: seq<Piece>)
    ensures Render(a + b) == Render(a) + Render(b)
    decreases |b|
  {
    if b == [] {
      assert a + b == a;
    } else {
      assert (a + b)[..|a + b| - 1] == a + b[..|b| - 1];
      RenderAppend(a, b[..|b| - 1]);
      var last := match b[|b| - 1] case Lit(t) => t case Param(tok, _) => tok;
      Text.AppendAssoc(Render(a), Render(b[..|b| - 1]), last);
    }
  }

  lemma {:induction false} ParamsAppend(a: seq<Piece>, b: seq<Piece>)
    ensures ParamValues(a + b) == ParamValues(a) + ParamValues(b)
    ensures ParamTokens(a + b) == ParamTokens(a) + ParamTokens(b)
    decreases |b|
  {
    if b == [] {
      assert a + b == a;
    } else {
      assert (a + b)[..|a + b| - 1] == a + b[..|b| - 1];
      ParamsAppend(a, b[..|b| - 1]);
      var p := b[|b| - 1];
      Text.AppendAssoc(ParamValues(a), ParamValues(b[..|b| - 1]), if p.Param? then [p.value] else []);
      Text.AppendAssoc(ParamTokens(a), ParamTokens(b[..|b| - 1]), if p.Param? then [p.token] else []);
    }
  }

  /** Text only: no placeholder. */
  predicate LitOnly(ps: seq<Piece>)
  {
    forall i :: 0 <= i < |ps| ==> ps[i].Lit?
  }

  lemma {:induction false} LitOnlyNoParams(ps: seq<Piece>)
    requires LitOnly(ps)
    ensures ParamValues(ps) == [] && ParamTokens(ps) == []
    decreases |ps|
  {
    if ps != [] {
      LitOnlyNoParams(ps[..|ps| - 1]);
    }
  }

  /** The k-th placeholder (from 0) is the one numbered `start + k + 1`. */
  predicate NumberedFrom(ps: seq<Piece>, ec: EngineConstants, start: int)
  {
    forall k :: 0 <= k < |ParamTokens(ps)| ==> ParamTokens(ps)[k] == Placeholder(ec, start + k + 1)
  }

  lemma NumberedAppend(a: seq<Piece>, b: seq<Piece>, ec: EngineConstants, start: int)
    requires NumberedFrom(a, ec, start)
    requires NumberedFrom(b, ec, start + |ParamTokens(a)|)
    ensures NumberedFrom(a + b, ec, start)
  {
    ParamsAppend(a, b);
    var ta, tb := ParamTokens(a), ParamTokens(b);
    forall k | 0 <= k < |ParamTokens(a + b)|
      ensures ParamTokens(a + b)[k] == Placeholder(ec, start + k + 1)
    {
      if k >= |ta| {
        assert ParamTokens(a + b)[k] == tb[k - |ta|];
      }
    }
  }

  /** The values and texts of a short run of pieces: one literal, or a
      literal followed by a placeholder. */
  lemma ShortRuns(x: string, t: string, v: Input)
    ensures ParamValues([Lit(x)]) == [] && ParamTokens([Lit(x)]) == []
    ensures ParamValues([Lit(x), Param(t, v)]) == [v] && ParamTokens([Lit(x), Param(t, v)]) == [t]
    ensures Render([Lit(x)]) == x && Render([Lit(x), Param(t, v)]) == x + t
  {
    assert [Lit(x), Param(t, v)][..1] == [Lit(x)];
    assert [Lit(x)][..0] == [];
  }

  /** Pieces whose placeholders are numbered from `start`, with the counter
      standing after the last of them. */
  predicate Counted(ps: seq<Piece>, cnt: int, ec: EngineConstants, start: int)
  {
    NumberedFrom(ps, ec, start) && cnt == Advance(ec, start, |ParamTokens(ps)|)
  }

  lemma TextParams(ps: seq<Piece>, x: string)
    ensures ParamValues(ps + [Lit(x)]) == ParamValues(ps) && ParamTokens(ps + [Lit(x)]) == ParamTokens(ps)
  {
    ShortRuns(x, "", Nil);
    ParamsAppend(ps, [Lit(x)]);
  }

  lemma PlaceholderParams(ps: seq<Piece>, x: string, t: string, v: Input)
    ensures ParamValues(ps + [Lit(x), Param(t, v)]) == ParamValues(ps) + [v]
    ensures ParamTokens(ps + [Lit(x), Param(t, v)]) == ParamTokens(ps) + [t]
  {
    ShortRuns(x, t, v);
    ParamsAppend(ps, [Lit(x), Param(t, v)]);
  }

  /** Appending text keeps the numbering and the counter. */
  lemma AppendText(ps: seq<Piece>, cnt: int, x: string, ec: EngineConstants, start: int)
    requires Counted(ps, cnt, ec, start)
    ensures Counted(ps + [Lit(x)], cnt, ec, start)
  {
    ShortRuns(x, "", Nil);
    ParamsAppend(ps, [Lit(x)]);
  }

  /** Appending text and the next placeholder advances the counter by one
      step and keeps the numbering. */
  lemma AppendPlaceholder(ps: seq<Piece>, cnt: int, x: string, v: Input, ec: EngineConstants, start: int)
    requires Counted(ps, cnt, ec, start)
    ensures Counted(ps + [Lit(x), Param(Placeholder(ec, Next(ec, cnt)), v)], Next(ec, cnt), ec, start)
  {
    var t := Placeholder(ec, Next(ec, cnt));
    ShortRuns(x, t, v);
    ParamsAppend(ps, [Lit(x), Param(t, v)]);
    var k := |ParamTokens(ps)|;
    assert t == Placeholder(ec, start + k + 1);
    NumberedAppend(ps, [Lit(x), Param(t, v)], ec, start);
  }

  /** Appending text, or text and a placeholder, appends their text. */
  lemma RenderSnoc(ps: seq<Piece>, x: string, t: string, v: Input)
    ensures Render(ps + [Lit(x)]) == Render(ps) + x
    ensures Render(ps + [Lit(x), Param(t, v)]) == Render(ps) + x + t
  {
    ShortRuns(x, t, v);
    RenderAppend(ps, [Lit(x)]);
    RenderAppend(ps, [Lit(x), Param(t, v)]);
  }

  /** Pieces enclosed between two literals render enclosed between them. */
  lemma EnclosedText(x: string, ps: seq<Piece>, y: string)
    ensures Render([Lit(x)] + ps + [Lit(y)]) == x + Render(ps) + y
  {
    ShortRuns(x, "", Nil);
    RenderAppend([Lit(x)], ps);
    RenderSnoc([Lit(x)] + ps, y, "", Nil);
  }

  /** Enclosing pieces between two literals adds no placeholder. */
  lemma EnclosedParams(x: string, ps: seq<Piece>, y: string)
    ensures ParamValues([Lit(x)] + ps + [Lit(y)]) == ParamValues(ps)
  {
    ShortRuns(x, "", Nil);
    ParamsAppend([Lit(x)], ps);
    TextParams([Lit(x)] + ps, y);
  }
}
