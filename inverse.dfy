/**
 * The converse of the round trip in `Layout`: whatever `expr` reads is a
 * tree written out, so the tree it returns holds the input's tokens in the
 * input's order, nested as the input's parentheses nest, and everything
 * else it consumed is whitespace. This covers every input the parser
 * accepts, including those where two tokens touch, such as `(x'y)`, which
 * `Layout.Fits` leaves out.
 */
module Inverse {
  import opened Nom
  import opened Parser
  import opened ParserSpec
  import opened Layout
  import Ast

  /**
   * `e` written out with layout `l` has well-shaped tokens and only
   * whitespace in its gaps. Unlike `Layout.Fits`, two tokens may touch.
   */
  predicate Shaped(e: Ast.Expr, l: Layout)
    decreases e, 0
  {
    match e
    case Atom(a) => IsAtomText(a.text)
    case Ident(x) => IsIdentText(x.text)
    case List(es) => AllIn(IsSpace, l.Trail()) && ItemsShaped(es, l, 0)
  }

  /** The elements `es[i..]` are shaped by their entries of `l`. */
  predicate ItemsShaped(es: seq<Ast.Expr>, l: Layout, i: nat)
    decreases es, |es| - i
  {
    i < |es| ==> AllIn(IsSpace, l.Gap(i)) && Shaped(es[i], l.Item(i)) && ItemsShaped(es, l, i + 1)
  }

  /** Every layout the round trip accepts is one of these. */
  lemma {:induction false} FitsIsShaped(e: Ast.Expr, l: Layout)
    requires Fits(e, l)
    decreases e, 0
    ensures Shaped(e, l)
  {
    match e
    case Atom(_) =>
    case Ident(_) =>
    case List(es) => ItemsFitAreShaped(es, l, 0);
  }

  lemma {:induction false} ItemsFitAreShaped(es: seq<Ast.Expr>, l: Layout, i: nat)
    requires ItemsFit(es, l, i)
    decreases es, |es| - i
    ensures ItemsShaped(es, l, i)
  {
    if i < |es| {
      FitsIsShaped(es[i], l.Item(i));
      ItemsFitAreShaped(es, l, i + 1);
    }
  }

  /** The layout of a list with one more element, after whitespace `g`, in front. */
  function Prepend(g: string, le: Layout, l: Layout): Layout
    requires l.Group?
  {
    Group([g] + l.gaps, [le] + l.items, l.trail)
  }

  lemma {:induction false} RenderFromPrepend(e: Ast.Expr, more: seq<Ast.Expr>, g: string, le: Layout, l: Layout, i: nat)
    requires l.Group?
    decreases |more| - i
    ensures RenderFrom([e] + more, Prepend(g, le, l), i + 1) == RenderFrom(more, l, i)
  {
    if i < |more| {
      assert ([e] + more)[i + 1] == more[i];
      RenderFromPrepend(e, more, g, le, l, i + 1);
    }
  }

  lemma {:induction false} ItemsShapedPrepend(e: Ast.Expr, more: seq<Ast.Expr>, g: string, le: Layout, l: Layout, i: nat)
    requires l.Group? && ItemsShaped(more, l, i)
    decreases |more| - i
    ensures ItemsShaped([e] + more, Prepend(g, le, l), i + 1)
  {
    if i < |more| {
      assert ([e] + more)[i + 1] == more[i];
      ItemsShapedPrepend(e, more, g, le, l, i + 1);
    }
  }

  /**
   * What `expr` consumed is whitespace `w`, the returned tree written out
   * with some layout `l`, and whitespace `v`. Only a list has whitespace
   * around it: `ws!` skips it before `(` and after `)`.
   */
  lemma {:induction false} ExprReadsRendering(s: string) returns (w: string, l: Layout, v: string)
    requires ParseExpr(s).Success?
    decreases |s|, 1
    ensures AllIn(IsSpace, w) && AllIn(IsSpace, v)
    ensures Shaped(ParseExpr(s).value, l)
    ensures s == w + Render(ParseExpr(s).value, l) + v + ParseExpr(s).rest
    ensures !ParseExpr(s).value.List? ==> w == [] && v == []
  {
    match ParseAtom(s)
    case Success(a, rest) =>
      w, l, v := [], Token, [];
      assert s == [] + a.text + [] + rest;
    case Failure =>
      match ParseIdent(s)
      case Success(x, rest) =>
        w, l, v := [], Token, [];
        assert s == [] + x.text + [] + rest;
      case Failure =>
        w, l, v := ListReadsRendering(s);
  }

  /** What `list` consumed is whitespace, the list written out, and whitespace. */
  lemma {:induction false} ListReadsRendering(s: string) returns (w: string, l: Layout, v: string)
    requires ParseList(s).Success?
    decreases |s|, 0
    ensures AllIn(IsSpace, w) && AllIn(IsSpace, v)
    ensures Shaped(Ast.Expr.List(ParseList(s).value), l)
    ensures s == w + Render(Ast.Expr.List(ParseList(s).value), l) + v + ParseList(s).rest
  {
    ListSteps(s);
    var s1 := SkipSpace(s);
    var (es, afterElems) := ParseElements(s1[1..]);
    var s2 := SkipSpace(afterElems);
    var r := SkipSpace(s2[1..]);
    w := Recognize(s, s1);
    v := Recognize(s2[1..], r);
    l := ElementsReadRendering([], s1[1..]);
    FirstAndRest(s1);
    FirstAndRest(s2);
    ListReadText(s, w, s1, s1[1..], RenderFrom(es, l, 0), l.trail, s2, s2[1..], v, r);
  }

  /** A non-empty text is its first character followed by the rest. */
  lemma FirstAndRest(s: string)
    requires s != []
    ensures s == [s[0]] + s[1..]
  {
  }

  /** Regrouping the text of a list. */
  lemma ListReadText(s: string, w: string, s1: string, a: string, body: string, trail: string, s2: string, b: string, v: string, r: string)
    requires s == w + s1 && s1 == "(" + a && [] + a == body + trail + s2 && s2 == ")" + b && b == v + r
    ensures s == w + ("(" + body + trail + ")") + v + r
  {
    assert [] + a == a;
    calc {
      s;
      w + ("(" + (body + trail + (")" + (v + r))));
      w + ("(" + body + trail + ")") + v + r;
    }
  }

  /**
   * The element loop, with whitespace `pre` in front of its input: that
   * whitespace, then the input, are the elements written out, whitespace,
   * and what follows the last element's whitespace.
   */
  lemma {:induction false} ElementsReadRendering(pre: string, x: string) returns (l: Layout)
    requires AllIn(IsSpace, pre)
    decreases |x|, 2
    ensures l.Group? && AllIn(IsSpace, l.trail)
    ensures ItemsShaped(ParseElements(x).0, l, 0)
    ensures pre + x == RenderFrom(ParseElements(x).0, l, 0) + l.trail + SkipSpace(ParseElements(x).1)
  {
    var s1 := SkipSpace(x);
    var g := Recognize(x, s1);
    match ParseExpr(s1)
    case Failure =>
      ElementsStop(x);
      l := Group([], [], pre + g);
      ElementsEndText(pre, x, g, s1, l);
    case Success(e, afterElem) =>
      ElementsTake(x, e, afterElem);
      var w', le, v' := ExprReadsRendering(s1);
      var l' := ElementsReadRendering(v', afterElem);
      var gap := pre + g + w';
      SpacesAppend(pre, g, w');
      l := Prepend(gap, le, l');
      ShapedCons(e, ParseElements(afterElem).0, gap, le, l');
      var more, rest := ParseElements(afterElem).0, ParseElements(afterElem).1;
      ElementsText(pre, x, g, s1, w', Render(e, le), v', afterElem, RenderFrom(more, l', 0), l'.trail, SkipSpace(rest));
      assert ParseElements(x) == ([e] + more, rest);
  }

  /** When the loop stops at once, everything before the next token is whitespace. */
  lemma ElementsEndText(pre: string, x: string, g: string, s1: string, l: Layout)
    requires x == g + s1 && l == Group([], [], pre + g)
    requires AllIn(IsSpace, pre) && AllIn(IsSpace, g)
    ensures AllIn(IsSpace, l.trail)
    ensures pre + x == RenderFrom([], l, 0) + l.trail + s1
  {
    SpacesAppend(pre, g, []);
    assert pre + g + [] == pre + g;
  }

  /** Whitespace followed by whitespace is whitespace. */
  lemma SpacesAppend(a: string, b: string, c: string)
    requires AllIn(IsSpace, a) && AllIn(IsSpace, b) && AllIn(IsSpace, c)
    ensures AllIn(IsSpace, a + b + c)
  {
  }

  /** One more element, after whitespace `g`, in front of a shaped list of elements. */
  lemma ShapedCons(e: Ast.Expr, more: seq<Ast.Expr>, g: string, le: Layout, l: Layout)
    requires l.Group? && AllIn(IsSpace, g) && Shaped(e, le) && ItemsShaped(more, l, 0)
    ensures ItemsShaped([e] + more, Prepend(g, le, l), 0)
    ensures RenderFrom([e] + more, Prepend(g, le, l), 0) == g + Render(e, le) + RenderFrom(more, l, 0)
    ensures Prepend(g, le, l).trail == l.trail
  {
    RenderFromPrepend(e, more, g, le, l, 0);
    ItemsShapedPrepend(e, more, g, le, l, 0);
    assert ([e] + more)[0] == e;
  }

  /** Regrouping the text of the element loop. */
  lemma ElementsText(pre: string, x: string, g: string, s1: string, w: string, t: string, v: string, after: string,
                     body: string, trail: string, next: string)
    requires x == g + s1 && s1 == w + t + v + after && v + after == body + trail + next
    ensures pre + x == (pre + g + w) + t + body + trail + next
  {
    assert s1 == (w + t) + (v + after);
  }

  /** Touching tokens: `(x'y)` is a list of an identifier and an atom, with no whitespace between them. */
  lemma TouchingTokens()
    ensures ParseExpr("(x'y)") == Success(Ast.Expr.List([TouchingIdent, TouchingAtom]), [])
  {
    assert "(x'y)"[1..] == "x'y)";
    TouchingElements();
    ClosedList("(x'y)", [TouchingIdent, TouchingAtom]);
  }

  /** `(`, elements that the loop reads up to a final `)`, and nothing after it, make a list. */
  lemma ClosedList(s: string, es: seq<Ast.Expr>)
    requires s != [] && s[0] == '('
    requires ParseElements(s[1..]) == (es, ")")
    ensures ParseExpr(s) == Success(Ast.Expr.List(es), [])
  {
    NoLeadingSpace(s);
    LoneClose(")");
    ClosedListSteps(s, es, ")");
    Delimiter('(');
    OtherStartIsList(s);
  }

  lemma LoneClose(t: string)
    requires t == ")"
    ensures t != [] && t[0] == ')' && SkipSpace(t) == t && SkipSpace(t[1..]) == []
  {
    NoLeadingSpace(t);
    NoLeadingSpace([]);
    assert t[1..] == [];
  }

  lemma ClosedListSteps(s: string, es: seq<Ast.Expr>, t: string)
    requires s != [] && s[0] == '(' && SkipSpace(s) == s
    requires ParseElements(s[1..]) == (es, t)
    requires t != [] && t[0] == ')' && SkipSpace(t) == t && SkipSpace(t[1..]) == []
    ensures ParseList(s) == Success(es, [])
  {
    ListFromSteps(s);
  }

  const TouchingIdent: Ast.Expr := Ast.Expr.Ident(Ast.Ident.Ident("x"))

  const TouchingAtom: Ast.Expr := Ast.Expr.Atom(Ast.Atom.Atom("'y"))

  lemma TouchingElements()
    ensures ParseElements("x'y)") == ([TouchingIdent, TouchingAtom], ")")
  {
    NoLeadingSpace("x'y)");
    NoLeadingSpace("'y)");
    NoLeadingSpace(")");
    TouchingIdentFirst();
    TouchingAtomNext();
    CloseEndsElements([]);
    assert ")" + [] == ")";
    OneElement("'y)", TouchingAtom, ")");
    TwoElements("x'y)", TouchingIdent, "'y)", TouchingAtom, ")");
  }

  /** Text that does not start with whitespace is left as it is by `sp`. */
  lemma NoLeadingSpace(s: string)
    requires s == [] || !IsSpace(s[0])
    ensures SkipSpace(s) == s
  {
    SkipSpaceExact([], s);
    assert [] + s == s;
  }

  /** The element loop takes two expressions and stops. */
  lemma TwoElements(x: string, e1: Ast.Expr, r1: string, e2: Ast.Expr, r2: string)
    requires ParseExpr(SkipSpace(x)) == Success(e1, r1)
    requires ParseElements(r1) == ([e2], r2)
    ensures ParseElements(x) == ([e1, e2], r2)
  {
    ElementsTake(x, e1, r1);
    PairDisplay(e1, e2);
  }

  lemma PairDisplay(e1: Ast.Expr, e2: Ast.Expr)
    ensures [e1] + [e2] == [e1, e2]
  {
  }

  /** The element loop takes one expression and stops. */
  lemma OneElement(x: string, e: Ast.Expr, r: string)
    requires ParseExpr(SkipSpace(x)) == Success(e, r)
    requires ParseExpr(SkipSpace(r)).Failure?
    ensures ParseElements(x) == ([e], r)
  {
    ElementsStop(r);
    ElementsTake(x, e, r);
    SingleDisplay(e);
  }

  lemma SingleDisplay(e: Ast.Expr)
    ensures [e] + [] == [e]
  {
  }

  lemma TouchingIdentFirst()
    ensures ParseExpr("x'y)") == Success(TouchingIdent, "'y)")
  {
    Delimiter('\'');
    assert !IsIdentText("x" + ['\'']) by {
      assert ("x" + ['\''])[1] == '\'';
    }
    IdentFromSplit("x'y)", "x", "'y)");
    IdentStartGivesIdent("x'y)");
  }

  lemma TouchingAtomNext()
    ensures ParseExpr("'y)") == Success(TouchingAtom, ")")
  {
    Delimiter(')');
    assert AllIn(IsAtomChar, "'y"[1..]);
    AtomFromSplit("'y)", "'y", ")");
    QuoteStartsAtom("'y)");
  }
}
