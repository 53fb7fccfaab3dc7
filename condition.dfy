/** The query description the generated repositories accept (`condition.Req`
    of the ORM helper): paging, an ordered list of clauses and an order.
    Besides the shape, the module gives the meaning of the clauses the core
    uses: `EQ` compares a column with a value, `LIKE` matches a column
    against an SQL pattern, and all clauses are joined by `AND`. */
module Condition {

  /** A column value or a clause operand. */
  datatype Value = Str(s: string) | Int(i: int) | Bool(b: bool)

  /** The comparison operators the core uses. */
  datatype Exp = EQ | LIKE

  /** The clause connective the core uses. */
  datatype Logic = AND

  datatype Direction = ASC | DESC

  datatype QueryParam = QueryParam(field: string, value: Value, exp: Exp, logic: Logic)

  datatype OrderParam = OrderParam(field: string, order: Direction)

  datatype Req = Req(page: int, pageSize: int, query: seq<QueryParam>, order: seq<OrderParam>)

  /** The pager the repository returns beside a page of rows. */
  datatype Paginator = Paginator(total: int)

  // ---------------------------------------------------------------- LIKE

  /** One element of a compiled LIKE pattern: `%` (any run of characters),
      `_` (exactly one character) or a literal character. */
  datatype Tok = Many | One | Lit(c: char)

  /** Compiles a LIKE pattern; a backslash makes the next character literal,
      a trailing backslash stands for itself. */
  function Tokens(p: string): seq<Tok>
    decreases |p|
  {
    if p == [] then []
    else if p[0] == '%' then [Many] + Tokens(p[1..])
    else if p[0] == '_' then [One] + Tokens(p[1..])
    else if p[0] == '\\' && |p| >= 2 then [Lit(p[1])] + Tokens(p[2..])
    else [Lit(p[0])] + Tokens(p[1..])
  }

  /** Whether s matches the compiled pattern t as a whole (case-sensitive). */
  function Matches(s: string, t: seq<Tok>): bool
    decreases |t|, |s|
  {
    if t == [] then s == []
    else match t[0]
      case Many => Matches(s, t[1..]) || (s != [] && Matches(s[1..], t))
      case One => s != [] && Matches(s[1..], t[1..])
      case Lit(c) => s != [] && s[0] == c && Matches(s[1..], t[1..])
  }

  predicate Like(s: string, pattern: string) {
    Matches(s, Tokens(pattern))
  }

  /** A string with none of the characters LIKE treats specially. */
  predicate Plain(w: string) {
    forall i :: 0 <= i < |w| ==> w[i] != '%' && w[i] != '_' && w[i] != '\\'
  }

  function Lits(w: string): (t: seq<Tok>)
    ensures |t| == |w|
    ensures forall i :: 0 <= i < |w| ==> t[i] == Lit(w[i])
  {
    seq(|w|, i requires 0 <= i < |w| => Lit(w[i]))
  }

  predicate IsPrefix(w: string, s: string) {
    |w| <= |s| && s[..|w|] == w
  }

  /** w occurs in s as a contiguous piece. */
  predicate Contains(s: string, w: string) {
    exists i :: 0 <= i <= |s| && IsPrefix(w, s[i..])
  }

  /** A plain first character compiles to a literal. */
  lemma TokensLit(p: string)
    requires p != [] && p[0] != '%' && p[0] != '_' && p[0] != '\\'
    ensures Tokens(p) == [Lit(p[0])] + Tokens(p[1..])
  {
  }

  lemma PlainTail(w: string)
    requires w != [] && Plain(w)
    ensures Plain(w[1..]) && w[0] != '%' && w[0] != '_' && w[0] != '\\'
  {
    forall i | 0 <= i < |w| - 1 ensures w[1..][i] != '%' && w[1..][i] != '_' && w[1..][i] != '\\' {
      assert w[1..][i] == w[i + 1];
    }
  }

  lemma LitsCons(w: string)
    requires w != []
    ensures Lits(w) == [Lit(w[0])] + Lits(w[1..])
  {
  }

  /** One plain character in front: compiled as a literal ahead of the rest. */
  lemma TokensPlainStep(w: string, rest: string, t: seq<Tok>)
    requires w != [] && Plain(w)
    requires Tokens(w[1..] + rest) == Lits(w[1..]) + t
    ensures Tokens(w + rest) == Lits(w) + t
  {
    var p := w + rest;
    assert Tokens(p) == [Lit(w[0])] + Tokens(w[1..] + rest) by {
      assert p[0] == w[0] && p[1..] == w[1..] + rest;
      PlainTail(w);
      TokensLit(p);
    }
    assert Lits(w) + t == [Lit(w[0])] + (Lits(w[1..]) + t) by { LitsCons(w); }
  }

  /** A plain string compiles to its own characters, whatever follows it. */
  lemma {:induction false} TokensPlainThen(w: string, rest: string)
    requires Plain(w)
    ensures Tokens(w + rest) == Lits(w) + Tokens(rest)
  {
    if w != [] {
      PlainTail(w);
      TokensPlainThen(w[1..], rest);
      TokensPlainStep(w, rest, Tokens(rest));
    } else {
      assert w + rest == rest;
    }
  }

  /** `"%" + w + "%"` with a plain w compiles to Many, the characters of w, Many. */
  lemma ContainsPatternTokens(w: string)
    requires Plain(w)
    ensures Tokens("%" + w + "%") == [Many] + Lits(w) + [Many]
  {
    var p := "%" + w + "%";
    assert p[0] == '%' && p[1..] == w + "%";
    TokensPlainThen(w, "%");
    assert Tokens("%") == [Many] + Tokens("") by {
      assert "%"[1..] == "";
    }
  }

  /** Matching literal characters consumes exactly them. */
  lemma {:induction false} MatchesLits(s: string, w: string, t: seq<Tok>)
    ensures Matches(s, Lits(w) + t) <==> IsPrefix(w, s) && Matches(s[|w|..], t)
  {
    if w != [] {
      assert (Lits(w) + t)[0] == Lit(w[0]);
      assert (Lits(w) + t)[1..] == Lits(w[1..]) + t;
      if s != [] {
        MatchesLits(s[1..], w[1..], t);
        if s[0] == w[0] {
          assert IsPrefix(w, s) <==> IsPrefix(w[1..], s[1..]) by {
            if |w| <= |s| {
              assert s[..|w|] == [s[0]] + s[1..][..|w| - 1];
              assert w == [w[0]] + w[1..];
            }
          }
          if |w| <= |s| {
            assert s[|w|..] == s[1..][|w| - 1..];
          }
        } else {
          assert !IsPrefix(w, s) by {
            if |w| <= |s| { assert s[..|w|][0] == s[0]; }
          }
        }
      }
    } else {
      assert Lits(w) + t == t;
    }
  }

  /** A pattern ending in Many accepts every string. */
  lemma {:induction false} MatchesMany(s: string)
    ensures Matches(s, [Many])
    decreases |s|
  {
    assert [Many][1..] == [];
    if s != [] {
      MatchesMany(s[1..]);
    }
  }

  /** Occurrence at the front or further on. */
  lemma ContainsStep(s: string, w: string)
    ensures Contains(s, w) <==> IsPrefix(w, s) || (s != [] && Contains(s[1..], w))
  {
    if Contains(s, w) && !IsPrefix(w, s) {
      var i :| 0 <= i <= |s| && IsPrefix(w, s[i..]);
      assert i != 0 by { assert s[0..] == s; }
      assert s[1..][i - 1..] == s[i..];
    }
    if IsPrefix(w, s) {
      assert s[0..] == s;
    }
    if s != [] && Contains(s[1..], w) {
      var i :| 0 <= i <= |s| - 1 && IsPrefix(w, s[1..][i..]);
      assert s[1..][i..] == s[i + 1..];
    }
  }

  /** `Many w Many` matches s exactly when w occurs in s. */
  lemma {:induction false} MatchesContains(s: string, w: string)
    ensures Matches(s, [Many] + Lits(w) + [Many]) <==> Contains(s, w)
    decreases |s|
  {
    var t := [Many] + Lits(w) + [Many];
    assert t[0] == Many && t[1..] == Lits(w) + [Many];
    MatchesLits(s, w, [Many]);
    if IsPrefix(w, s) {
      MatchesMany(s[|w|..]);
    }
    if s != [] {
      MatchesContains(s[1..], w);
    }
    ContainsStep(s, w);
  }

  /** The keyword pattern `"%" + w + "%"` selects exactly the strings that
      contain w, provided w has no LIKE wildcard or escape character. */
  lemma LikeContains(s: string, w: string)
    requires Plain(w)
    ensures Like(s, "%" + w + "%") <==> Contains(s, w)
  {
    ContainsPatternTokens(w);
    MatchesContains(s, w);
  }

  /** An underscore in the keyword is a wildcard: "_" selects a question
      that does not contain it. */
  lemma WildcardKeyword()
    ensures Like("a", "%" + "_" + "%") && !Contains("a", "_")
  {
    var t := Tokens("%_%");
    assert "%_%"[1..] == "_%" && "_%"[1..] == "%" && "%"[1..] == "";
    assert t == [Many, One, Many];
    assert Matches("", [Many]) by { assert [Many][1..] == []; }
    assert Matches("a", [One, Many]) by { assert "a"[1..] == ""; assert [One, Many][1..] == [Many]; }
    assert Matches("a", t) by { assert t[1..] == [One, Many]; }
    assert "%" + "_" + "%" == "%_%";
    assert !IsPrefix("_", "a"[0..]) by { assert "a"[0..][..1] == "a"; }
    assert !IsPrefix("_", "a"[1..]) by { assert |"a"[1..]| == 0; }
  }

  // ----------------------------------------------------------- evaluation

  /** Whether one clause holds of a row whose columns are `cols`. */
  predicate Holds(p: QueryParam, cols: map<string, Value>) {
    p.field in cols &&
    match p.exp
      case EQ => cols[p.field] == p.value
      case LIKE => p.value.Str? && cols[p.field].Str? && Like(cols[p.field].s, p.value.s)
  }

  /** The rows a query selects: those satisfying every clause. */
  predicate Selects(query: seq<QueryParam>, cols: map<string, Value>) {
    forall i :: 0 <= i < |query| ==> Holds(query[i], cols)
  }
}
