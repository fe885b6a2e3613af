/** Table-name interpolation (v2): `{name}` tokens in the finished statement
    are replaced by the name qualified with a schema or a reference prefix.

    The source matches the regular expression `\{([a-zA-Z0-9\[\]"_-]*)\}`
    and replaces every match, leftmost first. Because braces are not name
    characters, a match starting at a `{` is determined by the longest run of
    name characters after it, so a left-to-right scanner finds the same
    matches. Each match is replaced by the template `schema.$1` (or `$1`)
    expanded for it, so a `$` in the schema is itself expanded. */
module Interpolation {
  import opened Text

  predicate IsNameChar(c: char)
  {
    ('a' <= c <= 'z') || ('A' <= c <= 'Z') || ('0' <= c <= '9') ||
    c == '[' || c == ']' || c == '"' || c == '_' || c == '-'
  }

  /** The length of the longest prefix made of name characters. */
  function NameRun(s: string): (k: nat)
    ensures k <= |s|
    ensures forall i :: 0 <= i < k ==> IsNameChar(s[i])
    ensures k < |s| ==> !IsNameChar(s[k])
  {
    if s != [] && IsNameChar(s[0]) then 1 + NameRun(s[1..]) else 0
  }

  /** A token begins the text: `{`, name characters, `}`. */
  predicate TokenStart(t: string)
  {
    t != [] && t[0] == '{' && 1 + NameRun(t[1..]) < |t| && t[1 + NameRun(t[1..])] == '}'
  }

  predicate TokenAt(s: string, i: int)
  {
    0 <= i < |s| && TokenStart(s[i..])
  }

  /** A character of a group reference in a replacement template: a
      letter, a digit or `_`. */
  predicate IsGroupNameChar(c: char)
  {
    ('a' <= c <= 'z') || ('A' <= c <= 'Z') || ('0' <= c <= '9') || c == '_'
  }

  /** The length of the longest prefix made of group-reference characters. */
  function GroupNameRun(s: string): (k: nat)
    ensures k <= |s|
    ensures forall i :: 0 <= i < k ==> IsGroupNameChar(s[i])
    ensures k < |s| ==> !IsGroupNameChar(s[k])
  {
    if s != [] && IsGroupNameChar(s[0]) then 1 + GroupNameRun(s[1..]) else 0
  }

  /** The text a group reference stands for in a match of the table
      expression: `0` is the whole match, `1` the name between the braces;
      every other number and every name refers to no group and gives
      nothing (leading zeros make a reference a name, not a number). */
  function Group(ref: string, whole: string, name: string): string
  {
    if ref == "0" then whole else if ref == "1" then name else ""
  }

  /** The replacement template expanded for one match: `$$` is a dollar,
      `$ref` and `${ref}` are group references, and a `$` not followed by a
      well-formed reference stays as it is. */
  function Expand(t: string, whole: string, name: string): (r: string)
    ensures (forall i :: 0 <= i < |t| ==> t[i] != '$') ==> r == t
    decreases |t|
  {
    if t == [] then []
    else if t[0] != '$' then [t[0]] + Expand(t[1..], whole, name)
    else if |t| > 1 && t[1] == '$' then "$" + Expand(t[2..], whole, name)
    else
      var rest := t[1..];
      if rest != [] && rest[0] == '{' then
        var k := GroupNameRun(rest[1..]);
        if k > 0 && 1 + k < |rest| && rest[1 + k] == '}' then
          Group(rest[1..1 + k], whole, name) + Expand(rest[k + 2..], whole, name)
        else "$" + Expand(rest, whole, name)
      else
        var k := GroupNameRun(rest);
        if k > 0 then Group(rest[..k], whole, name) + Expand(rest[k..], whole, name)
        else "$" + Expand(rest, whole, name)
  }

  /** Replaces every token by the template expanded for it. */
  function Substitute(s: string, template: string): string
    decreases |s|
  {
    if s == [] then []
    else if TokenStart(s) then
      var k := NameRun(s[1..]);
      Expand(template, s[..k + 2], s[1..1 + k]) + Substitute(s[k + 2..], template)
    else [s[0]] + Substitute(s[1..], template)
  }

  /** The qualifier written before a table name: the schema and a dot, or
      nothing when the schema is empty. */
  function Qualifier(schema: string): string
  {
    if schema != "" then schema + "." else ""
  }

  /** `InterpolateTable`: every token is replaced by the template made of
      the qualifier and a reference to the name. */
  function InterpolateTable(sql: string, schema: string): string
  {
    Substitute(sql, Qualifier(schema) + "$1")
  }

  /** A qualifier without `$` is copied, and the reference after it gives
      the name. */
  lemma {:induction false} ExpandQualifier(q: string, whole: string, name: string)
    requires forall i :: 0 <= i < |q| ==> q[i] != '$'
    ensures Expand(q + "$1", whole, name) == q + name
    decreases |q|
  {
    if q == [] {
      assert q + "$1" == "$1";
      assert GroupNameRun("1") == 1;
      assert "1"[..1] == "1";
      assert "1"[1..] == [];
    } else {
      assert (q + "$1")[1..] == q[1..] + "$1";
      ExpandQualifier(q[1..], whole, name);
      assert q == [q[0]] + q[1..];
    }
  }

  lemma ExpandName(whole: string)
    ensures Expand("$1", whole, "t") == "t"
    ensures Expand(".$1", whole, "t") == ".t"
    ensures Expand("b.$1", whole, "t") == "b.t"
  {
    assert "$1"[1..] == "1" && "1"[..1] == "1" && "1"[1..] == [] && GroupNameRun("1") == 1;
    assert ".$1"[1..] == "$1";
    assert "b.$1"[1..] == ".$1";
  }

  lemma ExpandDollars(whole: string)
    ensures Expand("a$b.$1", whole, "t") == "a.t"
    ensures Expand("a$$b.$1", whole, "t") == "a$b.t"
  {
    ExpandName(whole);
    assert "$b.$1"[1..] == "b.$1" && GroupNameRun(".$1") == 0 && GroupNameRun("b.$1") == 1;
    assert "b.$1"[..1] == "b" && "b.$1"[1..] == ".$1";
    assert Expand("$b.$1", whole, "t") == ".t";
    assert "a$b.$1"[1..] == "$b.$1";
    assert "$$b.$1"[2..] == "b.$1";
    assert Expand("$$b.$1", whole, "t") == "$b.t";
    assert "a$$b.$1"[1..] == "$$b.$1";
  }

  lemma SubstituteOneToken(template: string)
    ensures Substitute("{t}", template) == Expand(template, "{t}", "t")
  {
    var s := "{t}";
    assert s[1..] == "t}" && NameRun("}") == 0 && NameRun("t}") == 1;
    assert TokenStart(s) && s[..3] == s && s[1..2] == "t" && s[3..] == [];
    assert Substitute([], template) == [];
  }

  /** A `$` in the schema is expanded like a group reference: the schema
      `a$b` refers to a group named `b`, which does not exist, so the table
      `{t}` becomes `a.t`; `$$` gives one dollar. */
  lemma DollarInSchema()
    ensures InterpolateTable("{t}", "a$b") == "a.t"
    ensures InterpolateTable("{t}", "a$$b") == "a$b.t"
  {
    ExpandDollars("{t}");
    assert Qualifier("a$b") + "$1" == "a$b.$1";
    assert Qualifier("a$$b") + "$1" == "a$$b.$1";
    SubstituteOneToken("a$b.$1");
    SubstituteOneToken("a$$b.$1");
  }

  /** The schema chosen for interpolation in `Build`: the reference prefix
      (with `_` appended when it does not end in one) in reference mode, and
      a non-empty schema in any case. */
  function TableQualifier(schema: string, referenceMode: bool, prefix: string): (sch: string)
    ensures schema != "" ==> sch == schema
    ensures schema == "" && !referenceMode ==> sch == ""
    ensures schema == "" && referenceMode ==>
      sch == (if HasSuffix(prefix, "_") then prefix else prefix + "_")
    ensures schema == "" && referenceMode ==>
      HasSuffix(sch, "_") && |prefix| <= |sch| <= |prefix| + 1 && sch[..|prefix|] == prefix
  {
    var sch := if referenceMode then (if HasSuffix(prefix, "_") then prefix else prefix + "_") else "";
    if schema != "" then schema else sch
  }

  /** Text without tokens comes out unchanged. */
  lemma {:induction false} NoTokensUnchanged(s: string, template: string)
    requires forall i :: 0 <= i < |s| ==> !TokenAt(s, i)
    ensures Substitute(s, template) == s
    decreases |s|
  {
    if s != [] {
      assert !TokenAt(s, 0) && s[0..] == s;
      forall i | 0 <= i < |s[1..]|
        ensures !TokenAt(s[1..], i)
      {
        assert s[1..][i..] == s[i + 1..];
        assert !TokenAt(s, i + 1);
      }
      NoTokensUnchanged(s[1..], template);
    }
  }

  /** A statement seen as a sequence of parts: plain text, which holds no `{`,
      and `{name}` table tokens. */
  datatype Part = Plain(text: string) | Table(name: string)

  predicate WellFormed(p: Part)
  {
    match p
    case Plain(t) => forall i :: 0 <= i < |t| ==> t[i] != '{'
    case Table(n) => forall i :: 0 <= i < |n| ==> IsNameChar(n[i])
  }

  function Assemble(ps: seq<Part>): string
  {
    if ps == [] then ""
    else (match ps[0] case Plain(t) => t case Table(n) => "{" + n + "}") + Assemble(ps[1..])
  }

  /** The same parts with each token written as qualifier and name. */
  function Qualified(ps: seq<Part>, qualifier: string): string
  {
    if ps == [] then ""
    else (match ps[0] case Plain(t) => t case Table(n) => qualifier + n) + Qualified(ps[1..], qualifier)
  }

  lemma {:induction false} NameRunOfToken(n: string, rest: string)
    requires forall i :: 0 <= i < |n| ==> IsNameChar(n[i])
    ensures NameRun(n + "}" + rest) == |n|
    decreases |n|
  {
    if n != [] {
      assert (n + "}" + rest)[1..] == n[1..] + "}" + rest;
      NameRunOfToken(n[1..], rest);
    }
  }

  lemma {:induction false} SubstitutePlain(t: string, rest: string, template: string)
    requires forall i :: 0 <= i < |t| ==> t[i] != '{'
    ensures Substitute(t + rest, template) == t + Substitute(rest, template)
    decreases |t|
  {
    if t != [] {
      var s := t + rest;
      assert s[0] == t[0] && s[1..] == t[1..] + rest;
      assert !TokenStart(s);
      SubstitutePlain(t[1..], rest, template);
      calc {
        Substitute(s, template);
        [s[0]] + Substitute(s[1..], template);
        [t[0]] + (t[1..] + Substitute(rest, template));
        { assert t == [t[0]] + t[1..]; }
        t + Substitute(rest, template);
      }
    } else {
      assert t + rest == rest;
    }
  }

  lemma SubstituteToken(n: string, rest: string, template: string)
    requires forall i :: 0 <= i < |n| ==> IsNameChar(n[i])
    ensures Substitute("{" + n + "}" + rest, template)
      == Expand(template, "{" + n + "}", n) + Substitute(rest, template)
  {
    var s := "{" + n + "}" + rest;
    assert s[1..] == n + "}" + rest;
    NameRunOfToken(n, rest);
    assert s[1..1 + |n|] == n;
    assert s[..|n| + 2] == "{" + n + "}";
    assert s[|n| + 2..] == rest;
  }

  /** Interpolation replaces each `{name}` by the qualified name and leaves
      the plain text around the tokens as it is; with an empty schema the
      braces are simply dropped. A schema holding `$` is expanded as a
      template instead (see `DollarInSchema`). */
  lemma {:induction false} InterpolateParts(ps: seq<Part>, schema: string)
    requires forall i :: 0 <= i < |ps| ==> WellFormed(ps[i])
    requires forall i :: 0 <= i < |schema| ==> schema[i] != '$'
    ensures InterpolateTable(Assemble(ps), schema) == Qualified(ps, Qualifier(schema))
    decreases |ps|
  {
    var q := Qualifier(schema);
    assert forall i :: 0 <= i < |q| ==> q[i] != '$' by {
      if schema != "" {
        forall i | 0 <= i < |q| ensures q[i] != '$' {
          if i < |schema| { assert q[i] == schema[i]; }
        }
      }
    }
    if ps != [] {
      InterpolateParts(ps[1..], schema);
      match ps[0]
      case Plain(t) =>
        SubstitutePlain(t, Assemble(ps[1..]), q + "$1");
      case Table(n) =>
        assert "{" + n + "}" + Assemble(ps[1..]) == Assemble(ps);
        SubstituteToken(n, Assemble(ps[1..]), q + "$1");
        ExpandQualifier(q, "{" + n + "}", n);
    }
  }
}
