/**
 * The unit tests of src/parser.rs, stated as lemmas: each test's verdict
 * under the `test_parser!` rule is proved for its own input.
 */
module ParserTests {
  import opened Nom
  import opened Parser
  import opened ParserSpec
  import opened Layout
  import opened Harness
  import Ast

  /** A text that neither starts nor ends with whitespace is its own trim. */
  lemma Untrimmed(s: string)
    requires s == [] || (!IsWhiteSpace(s[0]) && !IsWhiteSpace(s[|s| - 1]))
    ensures Trim(s) == s
  {
    assert [] + s + [] == s;
    TrimExact([], s, []);
  }

  /** An atom test input that is a whole atom passes `-> ok` with that atom. */
  lemma AtomOk(s: string)
    requires IsAtomText(s)
    ensures PassesOkWith(ParseAtom, s, Ast.Atom.Atom(s))
  {
    Untrimmed(s);
    AtomWhole(s);
  }

  /** Atom text on its own is read completely. */
  lemma AtomWhole(s: string)
    requires IsAtomText(s)
    ensures ParseAtom(s) == Success(Ast.Atom.Atom(s), [])
  {
    assert s + [] == s;
    AtomFromSplit(s, s, []);
  }

  /** An atom test input at whose start `atom` fails is rejected. */
  lemma AtomRejected(s: string)
    requires s == [] || (!IsWhiteSpace(s[0]) && !IsWhiteSpace(s[|s| - 1]))
    requires !(|s| >= 2 && s[0] == '\'' && IsAtomChar(s[1]))
    ensures PassesErr(ParseAtom, s)
  {
    Untrimmed(s);
  }

  /** An atom test input that is an atom `t` followed by a non-atom character is read up to `t`, and rejected. */
  lemma AtomLeftOver(s: string, t: string, r: string)
    requires t + r == s && IsAtomText(t)
    requires r != [] && !IsAtomChar(r[0]) && !IsWhiteSpace(r[|r| - 1])
    ensures ParseAtom(s) == Success(Ast.Atom.Atom(t), r)
    ensures PassesErr(ParseAtom, s)
  {
    AtomFromSplit(s, t, r);
    assert s[0] == '\'' && s[|s| - 1] == r[|r| - 1];
    TokenCharIsNotWhiteSpace('\'');
    Untrimmed(s);
  }

  /** No character of a token, and no parenthesis, is whitespace in the sense of `str::trim`. */
  lemma TokenCharIsNotWhiteSpace(c: char)
    requires IsIdentStart(c) || IsIdentRest(c) || c == '\'' || c == '(' || c == ')'
    ensures !IsWhiteSpace(c)
  {
  }

  /** Written-out text neither starts nor ends with whitespace in the sense of `str::trim`. */
  lemma RenderedEnds(e: Ast.Expr, l: Layout)
    requires Fits(e, l)
    ensures var text := Render(e, l);
      text != [] && !IsWhiteSpace(text[0]) && !IsWhiteSpace(text[|text| - 1])
  {
    var text := Render(e, l);
    var n := |text| - 1;
    match e
    case Atom(a) =>
      assert text[n] == text[1..][n - 1];
      TokenCharIsNotWhiteSpace(text[0]);
      TokenCharIsNotWhiteSpace(text[n]);
    case Ident(x) =>
      TokenCharIsNotWhiteSpace(text[0]);
      TokenCharIsNotWhiteSpace(text[n]);
    case List(es) =>
      TokenCharIsNotWhiteSpace(text[0]);
      TokenCharIsNotWhiteSpace(text[n]);
  }

  /** An expr test input that is a written-out tree between whitespace passes `-> ok` with that tree. */
  lemma RenderedOk(input: string, lead: string, e: Ast.Expr, l: Layout, trail: string)
    requires Fits(e, l) && AllIn(IsWhiteSpace, lead) && AllIn(IsWhiteSpace, trail)
    requires input == lead + Render(e, l) + trail
    ensures PassesOkWith(ParseExpr, input, e)
  {
    var text := Render(e, l);
    RenderedEnds(e, l);
    TrimExact(lead, text, trail);
    RenderParsesFully(e, l);
  }

  /** `test_atom`: the empty input is rejected. */
  lemma AtomEmptyTest()
    ensures PassesErr(ParseAtom, "")
  {
    AtomRejected("");
  }

  /** `test_atom`: a lone quote is rejected. */
  lemma AtomQuoteTest()
    ensures PassesErr(ParseAtom, "'")
  {
    AtomRejected("'");
  }

  /** `test_atom`: two quotes are rejected. */
  lemma AtomTwoQuotesTest()
    ensures PassesErr(ParseAtom, "''")
  {
    AtomRejected("''");
  }

  /** `test_atom`: a quote cannot follow the quote. */
  lemma AtomQuoteQuoteLetterTest()
    ensures PassesErr(ParseAtom, "''a")
  {
    AtomRejected("''a");
  }

  /** `test_atom`: a digit cannot follow the quote. */
  lemma AtomDigitTest()
    ensures PassesErr(ParseAtom, "'1")
  {
    AtomRejected("'1");
  }

  /** `test_atom`: `'ad1` is read up to the digit, which is left over. */
  lemma AtomTrailingDigitTest()
    ensures ParseAtom("'ad1") == Success(Ast.Atom.Atom("'ad"), "1")
    ensures PassesErr(ParseAtom, "'ad1")
  {
    AtomLeftOver("'ad1", "'ad", "1");
  }

  /** `test_atom`: `'a-d1` is read up to the digit, which is left over. */
  lemma AtomHyphenTrailingDigitTest()
    ensures ParseAtom("'a-d1") == Success(Ast.Atom.Atom("'a-d"), "1")
    ensures PassesErr(ParseAtom, "'a-d1")
  {
    AtomLeftOver("'a-d1", "'a-d", "1");
  }

  /** `test_atom`: one letter after the quote. */
  lemma AtomLetterTest()
    ensures PassesOkWith(ParseAtom, "'a", Ast.Atom.Atom("'a"))
  {
    AtomOk("'a");
  }

  /** `test_atom`: several letters. */
  lemma AtomLettersTest()
    ensures PassesOkWith(ParseAtom, "'abcdef", Ast.Atom.Atom("'abcdef"))
  {
    AtomOk("'abcdef");
  }

  /** `test_atom`: letters joined by hyphens. */
  lemma AtomHyphenatedTest()
    ensures PassesOkWith(ParseAtom, "'a-very-happy-atom", Ast.Atom.Atom("'a-very-happy-atom"))
  {
    AtomOk("'a-very-happy-atom");
  }

  /** `test_atom`: a single hyphen. */
  lemma AtomHyphenTest()
    ensures PassesOkWith(ParseAtom, "'-", Ast.Atom.Atom("'-"))
  {
    AtomOk("'-");
  }

  /** `test_atom`: hyphens around letters. */
  lemma AtomHyphensAroundTest()
    ensures PassesOkWith(ParseAtom, "'-a-a-", Ast.Atom.Atom("'-a-a-"))
  {
    AtomOk("'-a-a-");
  }

  /** `test_atom`: hyphens only. */
  lemma AtomHyphensTest()
    ensures PassesOkWith(ParseAtom, "'-------", Ast.Atom.Atom("'-------"))
  {
    AtomOk("'-------");
  }

  /** `()`, with or without whitespace inside, is the empty list. */
  lemma EmptyListTest(w: string)
    requires AllIn(IsSpace, w)
    ensures ParseExpr("(" + w + ")") == Success(Ast.Expr.List([]), [])
  {
    var l := Group([], [], w);
    assert Render(Ast.Expr.List([]), l) == "(" + w + ")" by {
      assert RenderFrom([], l, 0) == [];
    }
    assert Fits(Ast.Expr.List([]), l);
    RenderParsesFully(Ast.Expr.List([]), l);
  }

  /** The inner list `(cons 'ratatouille 'baguette)` of the `test_expr` cases. */
  const Cons: Ast.Expr :=
    Ast.Expr.List([
      Ast.Expr.Ident(Ast.Ident.Ident("cons")),
      Ast.Expr.Atom(Ast.Atom.Atom("'ratatouille")),
      Ast.Expr.Atom(Ast.Atom.Atom("'baguette"))
    ])

  /** Its layout: one space between the elements. */
  const ConsLayout: Layout := Group(["", " ", " "], [Token, Token, Token], "")

  lemma ConsFits()
    ensures Fits(Cons, ConsLayout)
  {
    WordIsIdent("cons");
    QuotedIsAtom("'ratatouille");
    QuotedIsAtom("'baguette");
    assert ItemsFit(Cons.elems, ConsLayout, 3);
    assert ItemsFit(Cons.elems, ConsLayout, 2);
    assert ItemsFit(Cons.elems, ConsLayout, 1);
  }

  /** A word of letters is identifier text. */
  lemma WordIsIdent(w: string)
    requires w != [] && forall i :: 0 <= i < |w| ==> IsAsciiAlphabetic(w[i])
    ensures IsIdentText(w)
  {
  }

  /** A quote followed by letters and hyphens is atom text. */
  lemma QuotedIsAtom(t: string)
    requires |t| >= 2 && t[0] == '\'' && forall i :: 1 <= i < |t| ==> IsAtomChar(t[i])
    ensures IsAtomText(t)
  {
    assert forall i :: 0 <= i < |t[1..]| ==> t[1..][i] == t[i + 1];
  }

  lemma ConsRender()
    ensures Render(Cons, ConsLayout) == "(cons 'ratatouille 'baguette)"
  {
    ConsRenderFrom0();
    Enclose("cons", " 'ratatouille", " 'baguette");
    ConsText();
  }

  lemma ConsRenderFrom0()
    ensures RenderFrom(Cons.elems, ConsLayout, 0) == "cons" + " 'ratatouille" + " 'baguette"
  {
    ConsRenderFrom1();
    Regroup("", "cons", " 'ratatouille", " 'baguette");
  }

  lemma ConsRenderFrom1()
    ensures RenderFrom(Cons.elems, ConsLayout, 1) == " 'ratatouille" + " 'baguette"
  {
    ConsRenderFrom2();
  }

  lemma ConsRenderFrom2()
    ensures RenderFrom(Cons.elems, ConsLayout, 2) == " 'baguette"
  {
    assert RenderFrom(Cons.elems, ConsLayout, 3) == "";
  }

  /** The expected tree of the first case of `test_expr`. */
  const CarTree: Ast.Expr := Ast.Expr.List([Ast.Expr.Ident(Ast.Ident.Ident("car")), Cons])

  /** How the `test_expr` cases lay it out, with whitespace `gap` before the inner list. */
  function CarLayout(gap: string): Layout
  {
    Group(["", gap], [Token, ConsLayout], "")
  }

  lemma CarFits(gap: string)
    requires gap != [] && AllIn(IsSpace, gap)
    ensures Fits(CarTree, CarLayout(gap))
  {
    var l := CarLayout(gap);
    ConsFits();
    WordIsIdent("car");
    assert ItemsFit(CarTree.elems, l, 2);
    assert ItemsFit(CarTree.elems, l, 1);
  }

  lemma CarRenderFrom1(gap: string)
    ensures RenderFrom(CarTree.elems, CarLayout(gap), 1) == gap + "(cons 'ratatouille 'baguette)"
  {
    ConsRender();
    assert RenderFrom(CarTree.elems, CarLayout(gap), 2) == "";
  }

  lemma CarRenderFrom0(gap: string)
    ensures RenderFrom(CarTree.elems, CarLayout(gap), 0) == "car" + gap + "(cons 'ratatouille 'baguette)"
  {
    CarRenderFrom1(gap);
    Regroup("", "car", gap, "(cons 'ratatouille 'baguette)");
  }

  lemma CarRender(gap: string)
    ensures Render(CarTree, CarLayout(gap)) == "(car" + gap + "(cons 'ratatouille 'baguette))"
  {
    CarRenderFrom0(gap);
    Enclose("car", gap, "(cons 'ratatouille 'baguette)");
  }

  /**
   * `test_expr`, first case: the input parses completely, to the expected
   * tree. The test's input is this text with `lead` a newline and twelve
   * spaces, `gap` a newline and sixteen spaces, and `trail` a newline and
   * eight spaces; any other whitespace there gives the same verdict.
   */
  lemma ExprTreeTest(lead: string, gap: string, trail: string)
    requires AllIn(IsWhiteSpace, lead) && AllIn(IsWhiteSpace, trail)
    requires gap != [] && AllIn(IsSpace, gap)
    ensures PassesOkWith(ParseExpr, lead + ("(car" + gap + "(cons 'ratatouille 'baguette))") + trail, CarTree)
  {
    CarFits(gap);
    CarRender(gap);
    RenderedOk(lead + ("(car" + gap + "(cons 'ratatouille 'baguette))") + trail, lead, CarTree, CarLayout(gap), trail);
  }

  /**
   * `test_expr_unmatched`, first case: the inner list's `)` is the last
   * character, so the outer list is never closed and `expr` fails.
   */
  lemma MissingCloseTest(lead: string, gap: string, trail: string)
    requires AllIn(IsWhiteSpace, lead) && AllIn(IsWhiteSpace, trail)
    requires gap != [] && AllIn(IsSpace, gap)
    ensures ParseExpr(Trim(lead + ("(car" + gap + "(cons 'ratatouille 'baguette)") + trail)).Failure?
    ensures PassesErr(ParseExpr, lead + ("(car" + gap + "(cons 'ratatouille 'baguette)") + trail)
  {
    var body := "(car" + gap + "(cons 'ratatouille 'baguette)";
    MissingCloseBody(gap);
    assert Trim(lead + body + trail) == body by {
      TokenCharIsNotWhiteSpace('(');
      TokenCharIsNotWhiteSpace(')');
      assert body[0] == '(' && body[|body| - 1] == ')';
      TrimExact(lead, body, trail);
    }
  }

  /** The first unmatched case without its surrounding whitespace. */
  lemma MissingCloseBody(gap: string)
    requires gap != [] && AllIn(IsSpace, gap)
    ensures ParseExpr("(car" + gap + "(cons 'ratatouille 'baguette)").Failure?
  {
    var es, l := CarTree.elems, CarLayout(gap);
    CarFits(gap);
    MissingCloseFails(es, l);
    CarRenderFrom0(gap);
    OpenedText(RenderFrom(es, l, 0), l.Trail(), gap);
  }

  /** The tree of the second unmatched case: `cons` and the atoms are elements of the outer list. */
  const FlatTree: Ast.Expr :=
    Ast.Expr.List([
      Ast.Expr.Ident(Ast.Ident.Ident("car")),
      Ast.Expr.Ident(Ast.Ident.Ident("cons")),
      Ast.Expr.Atom(Ast.Atom.Atom("'ratatouille")),
      Ast.Expr.Atom(Ast.Atom.Atom("'baguette"))
    ])

  /** Its layout, with whitespace `gap` after `car` and one space between the others. */
  function FlatLayout(gap: string): Layout
  {
    Group(["", gap, " ", " "], [Token, Token, Token, Token], "")
  }

  lemma FlatFits(gap: string)
    requires gap != [] && AllIn(IsSpace, gap)
    ensures Fits(FlatTree, FlatLayout(gap))
  {
    var l := FlatLayout(gap);
    WordIsIdent("car");
    WordIsIdent("cons");
    QuotedIsAtom("'ratatouille");
    QuotedIsAtom("'baguette");
    assert ItemsFit(FlatTree.elems, l, 3);
    assert ItemsFit(FlatTree.elems, l, 2);
    assert ItemsFit(FlatTree.elems, l, 1);
  }

  lemma FlatRenderFrom2(gap: string)
    ensures RenderFrom(FlatTree.elems, FlatLayout(gap), 2) == " 'ratatouille" + " 'baguette"
  {
    FlatRenderFrom3(gap);
  }

  lemma FlatRenderFrom3(gap: string)
    ensures RenderFrom(FlatTree.elems, FlatLayout(gap), 3) == " 'baguette"
  {
    assert RenderFrom(FlatTree.elems, FlatLayout(gap), 4) == "";
  }

  lemma FlatRenderFrom1(gap: string)
    ensures RenderFrom(FlatTree.elems, FlatLayout(gap), 1) == gap + "cons 'ratatouille 'baguette"
  {
    FlatRenderFrom2(gap);
    Regroup(gap, "cons", " 'ratatouille", " 'baguette");
    FlatWords();
  }

  lemma FlatRender(gap: string)
    ensures Render(FlatTree, FlatLayout(gap)) == "(car" + gap + "cons 'ratatouille 'baguette)"
  {
    FlatRenderFrom0(gap);
    Enclose("car", gap, "cons 'ratatouille 'baguette");
  }

  lemma FlatRenderFrom0(gap: string)
    ensures RenderFrom(FlatTree.elems, FlatLayout(gap), 0) == "car" + gap + "cons 'ratatouille 'baguette"
  {
    FlatRenderFrom1(gap);
    Regroup("", "car", gap, "cons 'ratatouille 'baguette");
  }

  /**
   * `test_expr_unmatched`, second case: without the inner `(`, the first
   * `)` closes the outer list and the second is left over, so the input is
   * not consumed.
   */
  lemma ExtraCloseTest(lead: string, gap: string, trail: string)
    requires AllIn(IsWhiteSpace, lead) && AllIn(IsWhiteSpace, trail)
    requires gap != [] && AllIn(IsSpace, gap)
    ensures ParseExpr(Trim(lead + ("(car" + gap + "cons 'ratatouille 'baguette))") + trail)) == Success(FlatTree, ")")
    ensures PassesErr(ParseExpr, lead + ("(car" + gap + "cons 'ratatouille 'baguette))") + trail)
  {
    FlatFits(gap);
    FlatRender(gap);
    var body := "(car" + gap + "cons 'ratatouille 'baguette))";
    assert Render(FlatTree, FlatLayout(gap)) + ")" == body;
    TrimExact(lead, body, trail);
    ExtraCloseLeftOver(FlatTree, FlatLayout(gap));
  }

  /** The tree of the `(Pair Atom Atom)` case: `Atom` here is an identifier, not an atom. */
  const PairTree: Ast.Expr :=
    Ast.Expr.List([
      Ast.Expr.Ident(Ast.Ident.Ident("Pair")),
      Ast.Expr.Ident(Ast.Ident.Ident("Atom")),
      Ast.Expr.Ident(Ast.Ident.Ident("Atom"))
    ])

  /** Its layout: one space between the elements. */
  const PairLayout: Layout := Group(["", " ", " "], [Token, Token, Token], "")

  lemma PairFits()
    ensures Fits(PairTree, PairLayout)
  {
    WordIsIdent("Pair");
    WordIsIdent("Atom");
    assert ItemsFit(PairTree.elems, PairLayout, 3);
    assert ItemsFit(PairTree.elems, PairLayout, 2);
    assert ItemsFit(PairTree.elems, PairLayout, 1);
  }

  lemma PairRenderFrom1()
    ensures RenderFrom(PairTree.elems, PairLayout, 1) == " Atom" + " Atom"
  {
    assert RenderFrom(PairTree.elems, PairLayout, 3) == "";
    assert RenderFrom(PairTree.elems, PairLayout, 2) == " Atom";
  }

  lemma PairRender()
    ensures Render(PairTree, PairLayout) == "(Pair Atom Atom)"
  {
    PairRenderFrom1();
    assert RenderFrom(PairTree.elems, PairLayout, 0) == "Pair" + " Atom" + " Atom" by {
      Regroup("", "Pair", " Atom", " Atom");
    }
    Enclose("Pair", " Atom", " Atom");
    PairText();
  }

  /** `test_expr`, the `(Pair Atom Atom)` case: it parses completely, to three identifiers. */
  lemma PairTest(lead: string, trail: string)
    requires AllIn(IsWhiteSpace, lead) && AllIn(IsWhiteSpace, trail)
    ensures PassesOk(ParseExpr, lead + "(Pair Atom Atom)" + trail)
    ensures PassesOkWith(ParseExpr, lead + "(Pair Atom Atom)" + trail, PairTree)
  {
    PairFits();
    PairRender();
    RenderedOk(lead + "(Pair Atom Atom)" + trail, lead, PairTree, PairLayout, trail);
  }

  // Regrouping concatenations. Each lemma below is a fact about strings
  // alone, stated apart so that the solver proves it in a small context
  // instead of inside the rendering proofs that use it.

  /** Enclosing written-out elements in parentheses, with no whitespace before `)`. */
  lemma Enclose(a: string, b: string, c: string)
    ensures "(" + (a + b + c) + "" + ")" == ("(" + a) + b + (c + ")")
  {
  }

  lemma ConsText()
    ensures ("(" + "cons") + " 'ratatouille" + (" 'baguette" + ")") == "(cons 'ratatouille 'baguette)"
  {
  }

  lemma FlatWords()
    ensures "cons" + (" 'ratatouille" + " 'baguette") == "cons 'ratatouille 'baguette"
  {
  }

  lemma PairText()
    ensures ("(" + "Pair") + " Atom" + (" Atom" + ")") == "(Pair Atom Atom)"
  {
  }

  lemma OpenedText(body: string, trail: string, gap: string)
    requires body == "car" + gap + "(cons 'ratatouille 'baguette)" && trail == ""
    ensures "(" + body + trail == "(car" + gap + "(cons 'ratatouille 'baguette)"
  {
    Regroup("(", "car", gap, "(cons 'ratatouille 'baguette)");
  }
}
