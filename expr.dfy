/**
 * The expression value of src/df_eval/expr.py: the text as given, a copy
 * with surrounding whitespace removed, and its string forms.
 */
module Expr {
  import opened Wrappers

  /** Python's `str.isspace()` for one character. */
  predicate IsSpace(c: char)
  {
    var n := c as int;
    n == 0x20 || 0x09 <= n <= 0x0D || 0x1C <= n <= 0x1F || n == 0x85 || n == 0xA0
    || n == 0x1680 || 0x2000 <= n <= 0x200A || n == 0x2028 || n == 0x2029
    || n == 0x202F || n == 0x205F || n == 0x3000
  }

  /** Every character of `s` is whitespace. */
  ghost predicate AllSpace(s: string)
  {
    forall k :: 0 <= k < |s| ==> IsSpace(s[k])
  }

  /** `s` neither starts nor ends with whitespace. */
  ghost predicate Trimmed(s: string)
  {
    s == [] || (!IsSpace(s[0]) && !IsSpace(s[|s| - 1]))
  }

  /** `str.lstrip()`: the longest suffix of `s` that does not start with whitespace. */
  function LStrip(s: string): (r: string)
    ensures |r| <= |s| && r == s[|s| - |r|..]
    ensures AllSpace(s[..|s| - |r|])
    ensures r == [] || !IsSpace(r[0])
  {
    if |s| > 0 && IsSpace(s[0]) then
      var r := LStrip(s[1..]);
      assert s[..|s| - |r|] == [s[0]] + s[1..][..|s| - 1 - |r|];
      r
    else
      s
  }

  /** `str.rstrip()`: the longest prefix of `s` that does not end with whitespace. */
  function RStrip(s: string): (r: string)
    ensures |r| <= |s| && r == s[..|r|]
    ensures AllSpace(s[|r|..])
    ensures r == [] || !IsSpace(r[|r| - 1])
  {
    if |s| > 0 && IsSpace(s[|s| - 1]) then
      var r := RStrip(s[..|s| - 1]);
      assert s[|r|..] == s[..|s| - 1][|r|..] + [s[|s| - 1]];
      r
    else
      s
  }

  /** `str.strip()`: never longer than the text, and no whitespace left at either end. */
  function Strip(s: string): (r: string)
    ensures |r| <= |s| && Trimmed(r)
  {
    var l := LStrip(s);
    var r := RStrip(l);
    assert r != [] ==> r[0] == l[0];
    r
  }

  /**
   * The stripped text is the slice `s[i..j]` of the original, everything cut
   * away is whitespace, and the slice itself has no surrounding whitespace.
   */
  lemma StripIsSlice(s: string) returns (i: nat, j: nat)
    ensures i <= j <= |s| && Strip(s) == s[i..j]
    ensures AllSpace(s[..i]) && AllSpace(s[j..])
    ensures Trimmed(Strip(s))
  {
    var l := LStrip(s);
    i := |s| - |l|;
    assert l == s[i..] && AllSpace(s[..i]);
    j := i + |RStrip(l)|;
    SliceOfSuffix(s, l, RStrip(l), i);
  }

  /** Stripping the tail of the suffix `l == s[i..]` leaves the slice `s[i..i + |r|]` and whitespace after it. */
  lemma SliceOfSuffix(s: string, l: string, r: string, i: nat)
    requires i <= |s| && l == s[i..] && r == RStrip(l) && (l == [] || !IsSpace(l[0]))
    ensures i + |r| <= |s| && r == s[i..i + |r|]
    ensures AllSpace(s[i + |r|..])
    ensures Trimmed(r)
  {
    var j := i + |r|;
    assert r == l[..|r|];
    assert s[i..j] == r;
    assert s[j..] == l[|r|..] by {
      assert s[j..] == s[i..][|r|..];
    }
    assert r == [] || r[0] == l[0];
  }

  /** Stripping text that has no surrounding whitespace leaves it unchanged. */
  lemma StripTrimmed(s: string)
    requires Trimmed(s)
    ensures Strip(s) == s
  {
  }

  /** Stripping twice is stripping once. */
  lemma StripIdempotent(s: string)
    ensures Strip(Strip(s)) == Strip(s)
  {
    var i, j := StripIsSlice(s);
    StripTrimmed(Strip(s));
  }

  /**
   * `Strip` agrees with its declarative description: whenever `s` splits into
   * whitespace, a trimmed non-empty middle and whitespace, the middle is `Strip(s)`.
   */
  lemma {:induction false} StripUnique(s: string, i: nat, j: nat)
    requires i < j <= |s|
    requires AllSpace(s[..i]) && AllSpace(s[j..]) && Trimmed(s[i..j])
    ensures Strip(s) == s[i..j]
  {
    LStripUnique(s, i);
    var l := LStrip(s);
    assert l == s[i..];
    RStripUnique(l, j - i);
    assert l[..j - i] == s[i..j];
  }

  lemma {:induction false} LStripUnique(s: string, i: nat)
    requires i < |s| && AllSpace(s[..i]) && !IsSpace(s[i])
    ensures LStrip(s) == s[i..]
  {
    if i > 0 {
      assert IsSpace(s[..i][0]);
      assert s[1..][..i - 1] == s[1..i];
      LStripUnique(s[1..], i - 1);
      assert s[1..][i - 1..] == s[i..];
    }
  }

  lemma {:induction false} RStripUnique(s: string, j: nat)
    requires 0 < j <= |s| && AllSpace(s[j..]) && !IsSpace(s[j - 1])
    ensures RStrip(s) == s[..j]
  {
    if j < |s| {
      assert IsSpace(s[j..][|s| - 1 - j]);
      var t := s[..|s| - 1];
      assert t[j..] == s[j..|s| - 1];
      RStripUnique(t, j);
      assert t[..j] == s[..j];
    }
  }

  /**
   * An expression: the text as given and the set of identifiers it
   * references.  The identifier set is an input here: the dependency
   * extractor is not part of this model.  `Expression(expr_str)` is the
   * datatype constructor; the parsed copy is not a field of its own but
   * always the stripped text, as `__init__` computes it.
   */
  datatype Expression = Expression(exprStr: string, dependencies: set<string>)
  {
    /** `_parsed`: the text without surrounding whitespace, which parsing again leaves alone. */
    function Parsed(): (p: string)
      ensures |p| <= |exprStr| && Trimmed(p)
      ensures Strip(p) == p
    {
      StripTrimmed(Strip(exprStr));
      Strip(exprStr)
    }

    /** `str(expr)`: the text verbatim, which parses to the parsed copy. */
    function Str(): (s: string)
      ensures s == exprStr && Strip(s) == Parsed()
    {
      exprStr
    }

    /** `repr(expr)`: `Expression('` + text + `')`, with no escaping. */
    function Repr(): (r: string)
      ensures |r| == |exprStr| + 14
      ensures r[..12] == "Expression('" && r[12..|r| - 2] == exprStr && r[|r| - 2..] == "')"
    {
      var r := "Expression('" + exprStr + "')";
      assert r[12..|r| - 2] == exprStr;
      r
    }
  }

  /** The example of the parsing test: `Expression("  a + b  ")` is parsed to `"a + b"`. */
  lemma StripExample()
    ensures Expression("  a + b  ", {"a", "b"}).Parsed() == "a + b"
  {
    var s := "  a + b  ";
    assert AllSpace(s[..2]) && AllSpace(s[7..]);
    StripUnique(s, 2, 7);
    assert s[2..7] == "a + b";
  }

  /** Reads the text back out of a `repr` string. */
  function ParseRepr(r: string): (text: Option<string>)
  {
    if |r| >= 14 && r[..12] == "Expression('" && r[|r| - 2..] == "')" then
      Some(r[12..|r| - 2])
    else
      None
  }

  /** `repr` keeps the whole text: it can be read back exactly. */
  lemma ReprRoundTrip(e: Expression)
    ensures ParseRepr(e.Repr()) == Some(e.Str())
  {
  }

  /** Two expressions with the same `repr` have the same text. */
  lemma ReprInjective(e1: Expression, e2: Expression)
    requires e1.Repr() == e2.Repr()
    ensures e1.exprStr == e2.exprStr
  {
    ReprRoundTrip(e1);
    ReprRoundTrip(e2);
  }

  /** The example of the repr test: `Expression("y - 1")`. */
  lemma ReprExample()
    ensures Expression("y - 1", {"y"}).Repr() == "Expression('y - 1')"
    ensures Expression("x * 2", {"x"}).Str() == "x * 2"
  {
  }
}
