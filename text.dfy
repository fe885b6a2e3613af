/** String helpers with the meaning Go's standard library gives them:
    `strings.Join`, `strings.ReplaceAll`, ASCII case folding (standing in for
    `strings.EqualFold` and `strings.ToLower`) and `strconv.Itoa`. */
module Text {

  /** The concatenation of all strings, in order. */
  function Concat(ss: seq<string>): string
  {
    if ss == [] then "" else Concat(ss[..|ss| - 1]) + ss[|ss| - 1]
  }

  lemma {:induction false} ConcatAppend(a: seq<string>, b: seq<string>)
    ensures Concat(a + b) == Concat(a) + Concat(b)
    decreases |b|
  {
    if b == [] {
      assert a + b == a;
    } else {
      assert (a + b)[..|a + b| - 1] == a + b[..|b| - 1];
      ConcatAppend(a, b[..|b| - 1]);
      AppendAssoc(Concat(a), Concat(b[..|b| - 1]), b[|b| - 1]);
    }
  }

  lemma ConcatSnoc(ss: seq<string>, x: string)
    ensures Concat(ss + [x]) == Concat(ss) + x
  {
    assert (ss + [x])[..|ss|] == ss;
  }

  /** Appending sequences is associative. */
  lemma AppendAssoc<T>(a: seq<T>, b: seq<T>, c: seq<T>)
    ensures a + b + c == a + (b + c)
  {
  }

  /** `strings.Join`: the items separated by `sep`. */
  function Join(ss: seq<string>, sep: string): string
  {
    if |ss| == 0 then ""
    else if |ss| == 1 then ss[0]
    else Join(ss[..|ss| - 1], sep) + sep + ss[|ss| - 1]
  }

  /** The separator written before the item that follows `count` written items. */
  function Sep(count: nat, sep: string): string
  {
    if count == 0 then "" else sep
  }

  /** Writing each item after its separator, as the builders' `cma` variable
      does, is the same as `strings.Join`. */
  lemma {:induction false} JoinBySeparators(ss: seq<string>, sep: string)
    ensures Join(ss, sep) == Concat(seq(|ss|, i requires 0 <= i < |ss| => Sep(i, sep) + ss[i]))
    decreases |ss|
  {
    var items := seq(|ss|, i requires 0 <= i < |ss| => Sep(i, sep) + ss[i]);
    if |ss| == 0 {
    } else if |ss| == 1 {
      assert items[..0] == [];
    } else {
      var n := |ss|;
      var init := ss[..n - 1];
      JoinBySeparators(init, sep);
      assert items[..n - 1] == seq(|init|, i requires 0 <= i < |init| => Sep(i, sep) + init[i]);
      assert items[n - 1] == sep + ss[n - 1];
      AppendAssoc(Join(init, sep), sep, ss[n - 1]);
    }
  }

  /** Joining one more item adds the separator (when something came before)
      and the item. */
  lemma JoinSnoc(ss: seq<string>, x: string, sep: string)
    ensures Join(ss + [x], sep) == Join(ss, sep) + Sep(|ss|, sep) + x
  {
    assert (ss + [x])[..|ss|] == ss;
  }

  /** `strings.Join` with the empty separator concatenates. */
  lemma JoinEmpty(ss: seq<string>)
    ensures Join(ss, "") == Concat(ss)
  {
    JoinBySeparators(ss, "");
    var items := seq(|ss|, i requires 0 <= i < |ss| => Sep(i, "") + ss[i]);
    forall i | 0 <= i < |ss|
      ensures items[i] == ss[i]
    {
      assert Sep(i, "") == "";
    }
    assert items == ss;
  }

  function LowerChar(c: char): char
  {
    if 'A' <= c <= 'Z' then (c as int + 32) as char else c
  }

  /** ASCII lower-casing: every capital letter becomes its small letter, 32
      code points on, and every other character is kept; no capital letter
      is left. */
  function ToLower(s: string): (r: string)
    ensures |r| == |s|
    ensures forall i :: 0 <= i < |s| && 'A' <= s[i] <= 'Z' ==> 'a' <= r[i] <= 'z' && r[i] as int == s[i] as int + 32
    ensures forall i :: 0 <= i < |s| && !('A' <= s[i] <= 'Z') ==> r[i] == s[i]
    ensures forall i :: 0 <= i < |r| ==> !('A' <= r[i] <= 'Z')
  {
    seq(|s|, i requires 0 <= i < |s| => LowerChar(s[i]))
  }

  /** Lower-casing twice is lower-casing once. */
  lemma ToLowerIdempotent(s: string)
    ensures ToLower(ToLower(s)) == ToLower(s)
  {
    var t := ToLower(s);
    assert forall i :: 0 <= i < |t| ==> ToLower(t)[i] == t[i];
  }

  /** Equality up to case is an equivalence: reflexive, symmetric and
      transitive. */
  lemma EqualFoldEquivalence(a: string, b: string, c: string)
    ensures EqualFold(a, a)
    ensures EqualFold(a, b) ==> EqualFold(b, a)
    ensures EqualFold(a, b) && EqualFold(b, c) ==> EqualFold(a, c)
  {
  }

  /** Case-insensitive equality of names (ASCII folding). */
  predicate EqualFold(a: string, b: string)
  {
    ToLower(a) == ToLower(b)
  }

  /** The position of the first name equal to `name` up to case, or -1. */
  function IndexOfName(names: seq<string>, name: string): (r: int)
    ensures -1 <= r < |names|
    ensures r >= 0 ==> EqualFold(name, names[r])
    ensures forall j :: 0 <= j < |names| && (r < 0 || j < r) ==> !EqualFold(name, names[j])
  {
    if names == [] then -1
    else if EqualFold(name, names[0]) then 0
    else
      var k := IndexOfName(names[1..], name);
      if k < 0 then -1 else k + 1
  }

  /** A scan that stops at the first name equal up to case, or at the end,
      stops where `IndexOfName` points. */
  lemma IndexOfNameAt(names: seq<string>, name: string, i: nat)
    requires i <= |names|
    requires forall j :: 0 <= j < i ==> !EqualFold(name, names[j])
    requires i < |names| ==> EqualFold(name, names[i])
    ensures IndexOfName(names, name) == if i < |names| then i else -1
  {
  }

  predicate HasSuffix(s: string, suffix: string)
  {
    |suffix| <= |s| && s[|s| - |suffix|..] == suffix
  }

  /** `rep` before every character and once at the end: what Go's
      `strings.ReplaceAll` does when the pattern is empty. */
  function Interleave(s: string, rep: string): string
  {
    if s == [] then rep else rep + [s[0]] + Interleave(s[1..], rep)
  }

  /** `strings.ReplaceAll`: every non-overlapping occurrence of `pat`, scanned
      left to right, replaced by `rep`. */
  function ReplaceAll(s: string, pat: string, rep: string): string
    decreases |s|
  {
    if pat == [] then Interleave(s, rep)
    else if |s| < |pat| then s
    else if s[..|pat|] == pat then rep + ReplaceAll(s[|pat|..], pat, rep)
    else [s[0]] + ReplaceAll(s[1..], pat, rep)
  }

  /** Character-by-character escaping: every `e` gets `esc` in front of it. */
  function EscapeChars(s: string, e: char, esc: string): string
  {
    if s == [] then [] else (if s[0] == e then esc + [e] else [s[0]]) + EscapeChars(s[1..], e, esc)
  }

  /** Replacing a one-character pattern is escaping character by character. */
  lemma {:induction false} ReplaceSingleChar(s: string, e: char, esc: string)
    ensures ReplaceAll(s, [e], esc + [e]) == EscapeChars(s, e, esc)
    decreases |s|
  {
    if s != [] {
      ReplaceSingleChar(s[1..], e, esc);
    }
  }

  /** The inverse of one-character escaping: every `d e` pair becomes `e`. */
  function Unescape(t: string, e: char, d: char): string
    decreases |t|
  {
    if t == [] then []
    else if |t| >= 2 && t[0] == d && t[1] == e then [e] + Unescape(t[2..], e, d)
    else [t[0]] + Unescape(t[1..], e, d)
  }

  lemma {:induction false} EscapeCharsHead(s: string, e: char, d: char)
    requires s != []
    ensures EscapeChars(s, e, [d])[0] == (if s[0] == e then d else s[0])
  {
  }

  /** Escaping loses nothing: unescaping gives the original text back, whatever
      the two characters are (they may even be the same, as in SQL's `''`). */
  lemma {:induction false} UnescapeEscape(s: string, e: char, d: char)
    ensures Unescape(EscapeChars(s, e, [d]), e, d) == s
    decreases |s|
  {
    if s != [] {
      UnescapeEscape(s[1..], e, d);
      UnescapeFirst(s, e, d);
    }
  }

  /** Unescaping the escaped first character, given the rest comes back. */
  lemma UnescapeFirst(s: string, e: char, d: char)
    requires s != [] && Unescape(EscapeChars(s[1..], e, [d]), e, d) == s[1..]
    ensures Unescape(EscapeChars(s, e, [d]), e, d) == s
  {
    var rest := EscapeChars(s[1..], e, [d]);
    assert s == [s[0]] + s[1..];
    if s[0] == e {
      assert EscapeChars(s, e, [d]) == [d, e] + rest;
      assert ([d, e] + rest)[2..] == rest;
    } else {
      assert EscapeChars(s, e, [d]) == [s[0]] + rest;
      if s[0] == d && rest != [] {
        EscapeCharsHead(s[1..], e, d);
      }
      assert ([s[0]] + rest)[1..] == rest;
    }
  }

  /** Escaping adds exactly one escape per occurrence of the enclosing character. */
  function Count(s: string, c: char): nat
  {
    if s == [] then 0 else (if s[0] == c then 1 else 0) + Count(s[1..], c)
  }

  lemma {:induction false} EscapeCharsLength(s: string, e: char, esc: string)
    ensures |EscapeChars(s, e, esc)| == |s| + |esc| * Count(s, e)
    decreases |s|
  {
    if s != [] {
      EscapeCharsLength(s[1..], e, esc);
    }
  }

  function DigitChar(d: nat): char
    requires d < 10
  {
    (48 + d) as char
  }

  predicate IsDigit(c: char)
  {
    '0' <= c <= '9'
  }

  function DigitValue(c: char): nat
    requires IsDigit(c)
  {
    c as int - 48
  }

  /** `strconv.Itoa` for a non-negative number. */
  function NatToString(n: nat): (r: string)
    ensures r != [] && forall i :: 0 <= i < |r| ==> IsDigit(r[i])
    decreases n
  {
    if n < 10 then [DigitChar(n)] else NatToString(n / 10) + [DigitChar(n % 10)]
  }

  /** `strconv.Itoa`: decimal, with a leading minus sign for negative numbers. */
  function IntToString(n: int): string
  {
    if n < 0 then "-" + NatToString(-n) else NatToString(n)
  }

  /** Reads back a string of decimal digits. */
  function ParseNat(s: string): nat
    requires forall i :: 0 <= i < |s| ==> IsDigit(s[i])
  {
    if s == [] then 0 else ParseNat(s[..|s| - 1]) * 10 + DigitValue(s[|s| - 1])
  }

  function ParseInt(s: string): int
    requires |s| > 0 && s[0] == '-' ==> forall i :: 1 <= i < |s| ==> IsDigit(s[i])
    requires !(|s| > 0 && s[0] == '-') ==> forall i :: 0 <= i < |s| ==> IsDigit(s[i])
  {
    if |s| > 0 && s[0] == '-' then -(ParseNat(s[1..]) as int) else ParseNat(s)
  }

  lemma {:induction false} ParseNatToString(n: nat)
    ensures ParseNat(NatToString(n)) == n
    decreases n
  {
    if n >= 10 {
      ParseNatToString(n / 10);
      var r := NatToString(n);
      assert r[..|r| - 1] == NatToString(n / 10);
    }
  }

  /** Decimal rendering is exact: reading the text back gives the number. */
  lemma IntToStringRoundTrip(n: int)
    ensures ParseInt(IntToString(n)) == n
  {
    if n < 0 {
      ParseNatToString(-n);
      assert IntToString(n)[1..] == NatToString(-n);
    } else {
      ParseNatToString(n);
    }
  }

  /** Hence different numbers never render alike. */
  lemma IntToStringInjective(a: int, b: int)
    requires IntToString(a) == IntToString(b)
    ensures a == b
  {
    IntToStringRoundTrip(a);
    IntToStringRoundTrip(b);
  }
}
