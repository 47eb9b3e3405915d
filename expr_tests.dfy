/**
 * The multi-line cases of `test_expr` in src/parser.rs after the first,
 * stated as lemmas. The tests expect `-> ok` without naming a tree; each
 * lemma also names the tree the input parses to. Each input is a tree
 * written out with a newline and indentation between some of its elements;
 * that whitespace is a parameter, so each lemma gives the test's verdict for
 * the test's own input and for any other whitespace in the same places.
 */
module ExprTests {
  import opened Nom
  import opened Parser
  import opened Layout
  import opened Harness
  import opened ParserTests
  import Ast

  function Word(t: string): Ast.Expr
  {
    Ast.Expr.Ident(Ast.Ident.Ident(t))
  }

  function Quoted(t: string): Ast.Expr
  {
    Ast.Expr.Atom(Ast.Atom.Atom(t))
  }

  /** The layout of a two-element list: whitespace `g` between the elements. */
  function TwoLayout(g: string, second: Layout): Layout
  {
    Group(["", g], [Token, second], "")
  }

  /** The layout of a three-element list: `g1` before the second element, `g2` before the third. */
  function ThreeLayout(g1: string, second: Layout, g2: string, third: Layout): Layout
  {
    Group(["", g1, g2], [Token, second, third], "")
  }

  /** Three tokens with one space between them. */
  const Spaced: Layout := ThreeLayout(" ", Token, " ", Token)

  lemma RenderTwo(a: Ast.Expr, b: Ast.Expr, g: string, lb: Layout)
    ensures Render(Ast.Expr.List([a, b]), TwoLayout(g, lb)) == "(" + Render(a, Token) + g + Render(b, lb) + ")"
  {
    var es, l := [a, b], TwoLayout(g, lb);
    assert RenderFrom(es, l, 2) == "";
    assert RenderFrom(es, l, 1) == g + Render(b, lb) + "";
    assert RenderFrom(es, l, 0) == "" + Render(a, Token) + (g + Render(b, lb) + "");
    FlattenTwo(Render(a, Token), g, Render(b, lb));
  }

  lemma RenderThree(a: Ast.Expr, b: Ast.Expr, c: Ast.Expr, g1: string, lb: Layout, g2: string, lc: Layout)
    ensures Render(Ast.Expr.List([a, b, c]), ThreeLayout(g1, lb, g2, lc))
         == "(" + Render(a, Token) + g1 + Render(b, lb) + g2 + Render(c, lc) + ")"
  {
    var es, l := [a, b, c], ThreeLayout(g1, lb, g2, lc);
    assert RenderFrom(es, l, 3) == "";
    assert RenderFrom(es, l, 2) == g2 + Render(c, lc) + "";
    assert RenderFrom(es, l, 1) == g1 + Render(b, lb) + (g2 + Render(c, lc) + "");
    assert RenderFrom(es, l, 0) == "" + Render(a, Token) + (g1 + Render(b, lb) + (g2 + Render(c, lc) + ""));
    FlattenThree(Render(a, Token), g1, Render(b, lb), g2, Render(c, lc));
  }

  lemma FitsTwo(a: Ast.Expr, b: Ast.Expr, g: string, lb: Layout)
    requires Fits(a, Token) && Fits(b, lb) && AllIn(IsSpace, g)
    requires g != [] || a.List? || b.List?
    ensures Fits(Ast.Expr.List([a, b]), TwoLayout(g, lb))
  {
    var es, l := [a, b], TwoLayout(g, lb);
    assert ItemsFit(es, l, 2);
    assert ItemsFit(es, l, 1);
  }

  lemma FitsThree(a: Ast.Expr, b: Ast.Expr, c: Ast.Expr, g1: string, lb: Layout, g2: string, lc: Layout)
    requires Fits(a, Token) && Fits(b, lb) && Fits(c, lc)
    requires AllIn(IsSpace, g1) && AllIn(IsSpace, g2)
    requires g1 != [] || a.List? || b.List?
    requires g2 != [] || b.List? || c.List?
    ensures Fits(Ast.Expr.List([a, b, c]), ThreeLayout(g1, lb, g2, lc))
  {
    var es, l := [a, b, c], ThreeLayout(g1, lb, g2, lc);
    assert ItemsFit(es, l, 3);
    assert ItemsFit(es, l, 2);
    assert ItemsFit(es, l, 1);
  }

  // `(car (cdr (cons 'ratatouille (cons 'baguette 'olive-oil))))`

  const OliveOil: Ast.Expr := Ast.Expr.List([Word("cons"), Quoted("'baguette"), Quoted("'olive-oil")])

  lemma OliveOilFits()
    ensures Fits(OliveOil, Spaced)
  {
    WordIsIdent("cons");
    QuotedIsAtom("'baguette");
    QuotedIsAtom("'olive-oil");
    FitsThree(Word("cons"), Quoted("'baguette"), Quoted("'olive-oil"), " ", Token, " ", Token);
  }

  lemma OliveOilRender()
    ensures Render(OliveOil, Spaced) == "(cons 'baguette 'olive-oil)"
  {
    RenderThree(Word("cons"), Quoted("'baguette"), Quoted("'olive-oil"), " ", Token, " ", Token);
    OliveOilText();
  }

  const Groceries: Ast.Expr := Ast.Expr.List([Word("cons"), Quoted("'ratatouille"), OliveOil])

  function GroceriesLayout(g: string): Layout
  {
    ThreeLayout(" ", Token, g, Spaced)
  }

  lemma GroceriesFits(g: string)
    requires AllIn(IsSpace, g)
    ensures Fits(Groceries, GroceriesLayout(g))
  {
    OliveOilFits();
    WordIsIdent("cons");
    QuotedIsAtom("'ratatouille");
    FitsThree(Word("cons"), Quoted("'ratatouille"), OliveOil, " ", Token, g, Spaced);
  }

  lemma GroceriesRender(g: string)
    ensures Render(Groceries, GroceriesLayout(g)) == "(cons 'ratatouille" + g + "(cons 'baguette 'olive-oil))"
  {
    RenderThree(Word("cons"), Quoted("'ratatouille"), OliveOil, " ", Token, g, Spaced);
    OliveOilRender();
    GroceriesText(g);
  }

  const CdrGroceries: Ast.Expr := Ast.Expr.List([Word("cdr"), Groceries])

  function CdrGroceriesLayout(g2: string, g3: string): Layout
  {
    TwoLayout(g2, GroceriesLayout(g3))
  }

  lemma CdrGroceriesFits(g2: string, g3: string)
    requires AllIn(IsSpace, g2) && AllIn(IsSpace, g3)
    ensures Fits(CdrGroceries, CdrGroceriesLayout(g2, g3))
  {
    GroceriesFits(g3);
    WordIsIdent("cdr");
    FitsTwo(Word("cdr"), Groceries, g2, GroceriesLayout(g3));
  }

  lemma CdrGroceriesRender(g2: string, g3: string)
    ensures Render(CdrGroceries, CdrGroceriesLayout(g2, g3))
         == "(cdr" + g2 + "(cons 'ratatouille" + g3 + "(cons 'baguette 'olive-oil)))"
  {
    RenderTwo(Word("cdr"), Groceries, g2, GroceriesLayout(g3));
    GroceriesRender(g3);
    Nest("cdr", g2, "(cons 'ratatouille", g3, "(cons 'baguette 'olive-oil))");
  }

  const CarCdrTree: Ast.Expr := Ast.Expr.List([Word("car"), CdrGroceries])

  function CarCdrLayout(g1: string, g2: string, g3: string): Layout
  {
    TwoLayout(g1, CdrGroceriesLayout(g2, g3))
  }

  lemma CarCdrFits(g1: string, g2: string, g3: string)
    requires AllIn(IsSpace, g1) && AllIn(IsSpace, g2) && AllIn(IsSpace, g3)
    ensures Fits(CarCdrTree, CarCdrLayout(g1, g2, g3))
  {
    CdrGroceriesFits(g2, g3);
    WordIsIdent("car");
    FitsTwo(Word("car"), CdrGroceries, g1, CdrGroceriesLayout(g2, g3));
  }

  lemma CarCdrRender(g1: string, g2: string, g3: string)
    ensures Render(CarCdrTree, CarCdrLayout(g1, g2, g3))
         == "(car" + g1 + "(cdr" + g2 + "(cons 'ratatouille" + g3 + "(cons 'baguette 'olive-oil))))"
  {
    RenderTwo(Word("car"), CdrGroceries, g1, CdrGroceriesLayout(g2, g3));
    CdrGroceriesRender(g2, g3);
    Nest("car", g1, "(cdr" + g2 + "(cons 'ratatouille", g3, "(cons 'baguette 'olive-oil)))");
  }

  /**
   * `test_expr`, second case. In the test, `lead` is a newline and twelve
   * spaces, `g1`, `g2` and `g3` a newline and 16, 20 and 24 spaces, and
   * `trail` a newline and eight spaces.
   */
  lemma CarCdrTest(lead: string, g1: string, g2: string, g3: string, trail: string)
    requires AllIn(IsWhiteSpace, lead) && AllIn(IsWhiteSpace, trail)
    requires AllIn(IsSpace, g1) && AllIn(IsSpace, g2) && AllIn(IsSpace, g3)
    ensures PassesOk(ParseExpr, lead + ("(car" + g1 + "(cdr" + g2 + "(cons 'ratatouille" + g3 + "(cons 'baguette 'olive-oil))))") + trail)
    ensures PassesOkWith(ParseExpr, lead + ("(car" + g1 + "(cdr" + g2 + "(cons 'ratatouille" + g3 + "(cons 'baguette 'olive-oil))))") + trail, CarCdrTree)
  {
    CarCdrFits(g1, g2, g3);
    CarCdrRender(g1, g2, g3);
    RenderedOk(lead + ("(car" + g1 + "(cdr" + g2 + "(cons 'ratatouille" + g3 + "(cons 'baguette 'olive-oil))))") + trail,
      lead, CarCdrTree, CarCdrLayout(g1, g2, g3), trail);
  }

  // `(Pair (cdr (cons Atom 'olive)) (car (cons 'oil Atom)))`

  const Olive: Ast.Expr := Ast.Expr.List([Word("cons"), Word("Atom"), Quoted("'olive")])

  lemma OliveFits()
    ensures Fits(Olive, Spaced)
  {
    WordIsIdent("cons");
    WordIsIdent("Atom");
    QuotedIsAtom("'olive");
    FitsThree(Word("cons"), Word("Atom"), Quoted("'olive"), " ", Token, " ", Token);
  }

  lemma OliveRender()
    ensures Render(Olive, Spaced) == "(cons Atom 'olive)"
  {
    RenderThree(Word("cons"), Word("Atom"), Quoted("'olive"), " ", Token, " ", Token);
    OliveText();
  }

  const CdrOlive: Ast.Expr := Ast.Expr.List([Word("cdr"), Olive])

  lemma CdrOliveFits(g: string)
    requires AllIn(IsSpace, g)
    ensures Fits(CdrOlive, TwoLayout(g, Spaced))
  {
    OliveFits();
    WordIsIdent("cdr");
    FitsTwo(Word("cdr"), Olive, g, Spaced);
  }

  lemma CdrOliveRender(g: string)
    ensures Render(CdrOlive, TwoLayout(g, Spaced)) == "(cdr" + g + "(cons Atom 'olive))"
  {
    RenderTwo(Word("cdr"), Olive, g, Spaced);
    OliveRender();
    Close("cdr", g, "(cons Atom 'olive)");
  }

  const Oil: Ast.Expr := Ast.Expr.List([Word("cons"), Quoted("'oil"), Word("Atom")])

  lemma OilFits()
    ensures Fits(Oil, Spaced)
  {
    WordIsIdent("cons");
    QuotedIsAtom("'oil");
    WordIsIdent("Atom");
    FitsThree(Word("cons"), Quoted("'oil"), Word("Atom"), " ", Token, " ", Token);
  }

  lemma OilRender()
    ensures Render(Oil, Spaced) == "(cons 'oil Atom)"
  {
    RenderThree(Word("cons"), Quoted("'oil"), Word("Atom"), " ", Token, " ", Token);
    OilText();
  }

  const CarOil: Ast.Expr := Ast.Expr.List([Word("car"), Oil])

  lemma CarOilFits(g: string)
    requires AllIn(IsSpace, g)
    ensures Fits(CarOil, TwoLayout(g, Spaced))
  {
    OilFits();
    WordIsIdent("car");
    FitsTwo(Word("car"), Oil, g, Spaced);
  }

  lemma CarOilRender(g: string)
    ensures Render(CarOil, TwoLayout(g, Spaced)) == "(car" + g + "(cons 'oil Atom))"
  {
    RenderTwo(Word("car"), Oil, g, Spaced);
    OilRender();
    Close("car", g, "(cons 'oil Atom)");
  }

  const PairListsTree: Ast.Expr := Ast.Expr.List([Word("Pair"), CdrOlive, CarOil])

  function PairListsLayout(g1: string, g2: string, g3: string, g4: string): Layout
  {
    ThreeLayout(g1, TwoLayout(g2, Spaced), g3, TwoLayout(g4, Spaced))
  }

  lemma PairListsFits(g1: string, g2: string, g3: string, g4: string)
    requires AllIn(IsSpace, g1) && AllIn(IsSpace, g2) && AllIn(IsSpace, g3) && AllIn(IsSpace, g4)
    ensures Fits(PairListsTree, PairListsLayout(g1, g2, g3, g4))
  {
    WordIsIdent("Pair");
    CdrOliveFits(g2);
    CarOilFits(g4);
    FitsThree(Word("Pair"), CdrOlive, CarOil, g1, TwoLayout(g2, Spaced), g3, TwoLayout(g4, Spaced));
  }

  lemma PairListsRender(g1: string, g2: string, g3: string, g4: string)
    ensures Render(PairListsTree, PairListsLayout(g1, g2, g3, g4))
         == "(Pair" + g1 + "(cdr" + g2 + "(cons Atom 'olive))" + g3 + "(car" + g4 + "(cons 'oil Atom)))"
  {
    RenderThree(Word("Pair"), CdrOlive, CarOil, g1, TwoLayout(g2, Spaced), g3, TwoLayout(g4, Spaced));
    CdrOliveRender(g2);
    CarOilRender(g4);
    NestTwo("Pair", g1, "(cdr", g2, "(cons Atom 'olive))", g3, "(car", g4, "(cons 'oil Atom))");
  }

  /**
   * `test_expr`, the case after `(Pair Atom Atom)`. In the test, `lead` is a
   * newline and twelve spaces, `g1` and `g3` a newline and 16 spaces, `g2`
   * and `g4` a newline and 20 spaces, and `trail` a newline and eight spaces.
   */
  lemma PairListsTest(lead: string, g1: string, g2: string, g3: string, g4: string, trail: string)
    requires AllIn(IsWhiteSpace, lead) && AllIn(IsWhiteSpace, trail)
    requires AllIn(IsSpace, g1) && AllIn(IsSpace, g2) && AllIn(IsSpace, g3) && AllIn(IsSpace, g4)
    ensures PassesOk(ParseExpr, lead + ("(Pair" + g1 + "(cdr" + g2 + "(cons Atom 'olive))" + g3 + "(car" + g4 + "(cons 'oil Atom)))") + trail)
    ensures PassesOkWith(ParseExpr, lead + ("(Pair" + g1 + "(cdr" + g2 + "(cons Atom 'olive))" + g3 + "(car" + g4 + "(cons 'oil Atom)))") + trail, PairListsTree)
  {
    PairListsFits(g1, g2, g3, g4);
    PairListsRender(g1, g2, g3, g4);
    RenderedOk(lead + ("(Pair" + g1 + "(cdr" + g2 + "(cons Atom 'olive))" + g3 + "(car" + g4 + "(cons 'oil Atom)))") + trail,
      lead, PairListsTree, PairListsLayout(g1, g2, g3, g4), trail);
  }

  // `(+ (add1 (add1 zero)) (add1 zero))`

  /** `add1` is identifier text: letters and then a digit. */
  lemma Add1Fits()
    ensures Fits(Word("add1"), Token)
  {
    var t := "add1";
    assert IsIdentStart(t[0]) && IsIdentStart(t[1]) && IsIdentStart(t[2]);
    assert IsIdentRest(t[3]);
  }

  /** `+` is identifier text. */
  lemma PlusFits()
    ensures Fits(Word("+"), Token)
  {
    assert IsIdentStart("+"[0]);
  }

  const AddZero: Ast.Expr := Ast.Expr.List([Word("add1"), Word("zero")])

  const AddZeroLayout: Layout := TwoLayout(" ", Token)

  lemma AddZeroFits()
    ensures Fits(AddZero, AddZeroLayout)
  {
    Add1Fits();
    WordIsIdent("zero");
    FitsTwo(Word("add1"), Word("zero"), " ", Token);
  }

  lemma AddZeroRender()
    ensures Render(AddZero, AddZeroLayout) == "(add1 zero)"
  {
    RenderTwo(Word("add1"), Word("zero"), " ", Token);
    AddZeroText();
  }

  const AddAdd: Ast.Expr := Ast.Expr.List([Word("add1"), AddZero])

  lemma AddAddFits(g: string)
    requires AllIn(IsSpace, g)
    ensures Fits(AddAdd, TwoLayout(g, AddZeroLayout))
  {
    Add1Fits();
    AddZeroFits();
    FitsTwo(Word("add1"), AddZero, g, AddZeroLayout);
  }

  lemma AddAddRender(g: string)
    ensures Render(AddAdd, TwoLayout(g, AddZeroLayout)) == "(add1" + g + "(add1 zero))"
  {
    RenderTwo(Word("add1"), AddZero, g, AddZeroLayout);
    AddZeroRender();
    Close("add1", g, "(add1 zero)");
  }

  const SumTree: Ast.Expr := Ast.Expr.List([Word("+"), AddAdd, AddZero])

  function SumLayout(g1: string, g2: string): Layout
  {
    ThreeLayout(" ", TwoLayout(g1, AddZeroLayout), g2, AddZeroLayout)
  }

  lemma SumFits(g1: string, g2: string)
    requires AllIn(IsSpace, g1) && AllIn(IsSpace, g2)
    ensures Fits(SumTree, SumLayout(g1, g2))
  {
    PlusFits();
    AddAddFits(g1);
    AddZeroFits();
    FitsThree(Word("+"), AddAdd, AddZero, " ", TwoLayout(g1, AddZeroLayout), g2, AddZeroLayout);
  }

  lemma SumRender(g1: string, g2: string)
    ensures Render(SumTree, SumLayout(g1, g2)) == "(+ (add1" + g1 + "(add1 zero))" + g2 + "(add1 zero))"
  {
    RenderThree(Word("+"), AddAdd, AddZero, " ", TwoLayout(g1, AddZeroLayout), g2, AddZeroLayout);
    AddAddRender(g1);
    AddZeroRender();
    SumText(g1, g2);
  }

  /**
   * `test_expr`, the `(+ …)` case. In the test, `lead` is a newline and
   * twelve spaces, `g1` a newline and 16 spaces, `g2` a newline and 14
   * spaces, and `trail` a newline and eight spaces.
   */
  lemma SumTest(lead: string, g1: string, g2: string, trail: string)
    requires AllIn(IsWhiteSpace, lead) && AllIn(IsWhiteSpace, trail)
    requires AllIn(IsSpace, g1) && AllIn(IsSpace, g2)
    ensures PassesOk(ParseExpr, lead + ("(+ (add1" + g1 + "(add1 zero))" + g2 + "(add1 zero))") + trail)
    ensures PassesOkWith(ParseExpr, lead + ("(+ (add1" + g1 + "(add1 zero))" + g2 + "(add1 zero))") + trail, SumTree)
  {
    SumFits(g1, g2);
    SumRender(g1, g2);
    RenderedOk(lead + ("(+ (add1" + g1 + "(add1 zero))" + g2 + "(add1 zero))") + trail,
      lead, SumTree, SumLayout(g1, g2), trail);
  }

  // `(define one (add1 zero))`

  const DefineTree: Ast.Expr := Ast.Expr.List([Word("define"), Word("one"), AddZero])

  function DefineLayout(g: string): Layout
  {
    ThreeLayout(" ", Token, g, AddZeroLayout)
  }

  lemma DefineFits(g: string)
    requires AllIn(IsSpace, g)
    ensures Fits(DefineTree, DefineLayout(g))
  {
    WordIsIdent("define");
    WordIsIdent("one");
    AddZeroFits();
    FitsThree(Word("define"), Word("one"), AddZero, " ", Token, g, AddZeroLayout);
  }

  lemma DefineRender(g: string)
    ensures Render(DefineTree, DefineLayout(g)) == "(define one" + g + "(add1 zero))"
  {
    RenderThree(Word("define"), Word("one"), AddZero, " ", Token, g, AddZeroLayout);
    AddZeroRender();
    DefineText(g);
  }

  /**
   * `test_expr`, the `(define …)` case. In the test, `lead` is a newline and
   * twelve spaces, `g` a newline and 16 spaces, and `trail` a newline and
   * eight spaces.
   */
  lemma DefineTest(lead: string, g: string, trail: string)
    requires AllIn(IsWhiteSpace, lead) && AllIn(IsWhiteSpace, trail)
    requires AllIn(IsSpace, g)
    ensures PassesOk(ParseExpr, lead + ("(define one" + g + "(add1 zero))") + trail)
    ensures PassesOkWith(ParseExpr, lead + ("(define one" + g + "(add1 zero))") + trail, DefineTree)
  {
    DefineFits(g);
    DefineRender(g);
    RenderedOk(lead + ("(define one" + g + "(add1 zero))") + trail, lead, DefineTree, DefineLayout(g), trail);
  }

  // `(claim two Nat)`

  const ClaimTree: Ast.Expr := Ast.Expr.List([Word("claim"), Word("two"), Word("Nat")])

  function ClaimLayout(g: string): Layout
  {
    ThreeLayout(" ", Token, g, Token)
  }

  lemma ClaimFits(g: string)
    requires g != [] && AllIn(IsSpace, g)
    ensures Fits(ClaimTree, ClaimLayout(g))
  {
    WordIsIdent("claim");
    WordIsIdent("two");
    WordIsIdent("Nat");
    FitsThree(Word("claim"), Word("two"), Word("Nat"), " ", Token, g, Token);
  }

  lemma ClaimRender(g: string)
    ensures Render(ClaimTree, ClaimLayout(g)) == "(claim two" + g + "Nat)"
  {
    RenderThree(Word("claim"), Word("two"), Word("Nat"), " ", Token, g, Token);
    ClaimText(g);
  }

  /**
   * `test_expr`, the last case. In the test, `lead` is a newline and twelve
   * spaces, `g` a newline and 16 spaces, and `trail` a newline and eight
   * spaces. The gap must not be empty: `twoNat` would be one identifier.
   */
  lemma ClaimTest(lead: string, g: string, trail: string)
    requires AllIn(IsWhiteSpace, lead) && AllIn(IsWhiteSpace, trail)
    requires g != [] && AllIn(IsSpace, g)
    ensures PassesOk(ParseExpr, lead + ("(claim two" + g + "Nat)") + trail)
    ensures PassesOkWith(ParseExpr, lead + ("(claim two" + g + "Nat)") + trail, ClaimTree)
  {
    ClaimFits(g);
    ClaimRender(g);
    RenderedOk(lead + ("(claim two" + g + "Nat)") + trail, lead, ClaimTree, ClaimLayout(g), trail);
  }

  // Regrouping concatenations. Each lemma below is a fact about strings
  // alone, stated apart so that the solver proves it in a small context
  // instead of inside the rendering proofs that use it.

  lemma FlattenTwo(a: string, g: string, b: string)
    ensures "(" + ("" + a + (g + b + "")) + "" + ")" == "(" + a + g + b + ")"
  {
  }

  lemma FlattenThree(a: string, g1: string, b: string, g2: string, c: string)
    ensures "(" + ("" + a + (g1 + b + (g2 + c + ""))) + "" + ")" == "(" + a + g1 + b + g2 + c + ")"
  {
  }

  /** Writing a two-element list around a text: only the brackets join the words next to them. */
  lemma Close(head: string, g: string, b: string)
    ensures "(" + head + g + b + ")" == ("(" + head) + g + (b + ")")
  {
  }

  /** Writing a list around one whose text has a gap in it. */
  lemma Nest(head: string, g: string, a: string, h: string, b: string)
    ensures "(" + head + g + (a + h + b) + ")" == ("(" + head) + g + a + h + (b + ")")
  {
  }

  /** Writing a list whose elements after the first are a list with a gap in it, whitespace, and another such list. */
  lemma NestTwo(head: string, g1: string, a: string, h: string, b: string, g2: string, c: string, k: string, d: string)
    ensures "(" + head + g1 + (a + h + b) + g2 + (c + k + d) + ")"
         == ("(" + head) + g1 + a + h + b + g2 + c + k + (d + ")")
  {
  }

  lemma OliveOilText()
    ensures "(" + "cons" + " " + "'baguette" + " " + "'olive-oil" + ")" == "(cons 'baguette 'olive-oil)"
  {
  }

  lemma GroceriesText(g: string)
    ensures "(" + "cons" + " " + "'ratatouille" + g + "(cons 'baguette 'olive-oil)" + ")"
         == "(cons 'ratatouille" + g + "(cons 'baguette 'olive-oil))"
  {
  }

  lemma OliveText()
    ensures "(" + "cons" + " " + "Atom" + " " + "'olive" + ")" == "(cons Atom 'olive)"
  {
  }

  lemma OilText()
    ensures "(" + "cons" + " " + "'oil" + " " + "Atom" + ")" == "(cons 'oil Atom)"
  {
  }

  lemma AddZeroText()
    ensures "(" + "add1" + " " + "zero" + ")" == "(add1 zero)"
  {
  }

  lemma SumText(g1: string, g2: string)
    ensures "(" + "+" + " " + ("(add1" + g1 + "(add1 zero))") + g2 + "(add1 zero)" + ")"
         == "(+ (add1" + g1 + "(add1 zero))" + g2 + "(add1 zero))"
  {
  }

  lemma DefineText(g: string)
    ensures "(" + "define" + " " + "one" + g + "(add1 zero)" + ")" == "(define one" + g + "(add1 zero))"
  {
  }

  lemma ClaimText(g: string)
    ensures "(" + "claim" + " " + "two" + g + "Nat" + ")" == "(claim two" + g + "Nat)"
  {
  }
}
