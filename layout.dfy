/**
 * Completeness of `expr`: every tree whose atoms and identifiers hold valid
 * token text, written out with any whitespace between its pieces, parses
 * back to exactly that tree, elements in order. This is the general form of
 * the acceptance tests of src/parser.rs; the unmatched-parenthesis tests are
 * the two ways of breaking such text (dropping the last `)`, adding one more).
 */
module Layout {
  import opened Nom
  import opened Parser
  import opened ParserSpec
  import Ast

  /**
   * Where the whitespace goes when a tree is written out. A list's layout
   * gives, per element, the whitespace in front of it and the element's own
   * layout, and the whitespace before the closing `)`. Missing entries mean
   * no whitespace.
   */
  datatype Layout = Token | Group(gaps: seq<string>, items: seq<Layout>, trail: string)
  {
    function Gap(i: nat): string
    {
      if Group? && i < |gaps| then gaps[i] else []
    }

    function Item(i: nat): Layout
    {
      if Group? && i < |items| then items[i] else Token
    }

    function Trail(): string
    {
      if Group? then trail else []
    }
  }

  /** The text of `e` written out with layout `l`. */
  function Render(e: Ast.Expr, l: Layout): string
    decreases e, 0
  {
    match e
    case Atom(a) => a.text
    case Ident(x) => x.text
    case List(es) => "(" + RenderFrom(es, l, 0) + l.Trail() + ")"
  }

  /** The elements `es[i..]` of a list written out with layout `l`, each after its whitespace. */
  function RenderFrom(es: seq<Ast.Expr>, l: Layout, i: nat): string
    decreases es, |es| - i
  {
    if i >= |es| then [] else l.Gap(i) + Render(es[i], l.Item(i)) + RenderFrom(es, l, i + 1)
  }

  /**
   * `e` can be written out with layout `l`: its tokens hold valid text and
   * the layout puts only whitespace between them. Whitespace after `(` and
   * before `)` may be empty; between two elements it may be empty only next
   * to a list, since two tokens would otherwise run together.
   */
  predicate Fits(e: Ast.Expr, l: Layout)
    decreases e, 0
  {
    match e
    case Atom(a) => IsAtomText(a.text)
    case Ident(x) => IsIdentText(x.text)
    case List(es) => AllIn(IsSpace, l.Trail()) && ItemsFit(es, l, 0)
  }

  /** The elements `es[i..]` fit their entries of `l`. */
  predicate ItemsFit(es: seq<Ast.Expr>, l: Layout, i: nat)
    decreases es, |es| - i
  {
    i < |es| ==>
      && AllIn(IsSpace, l.Gap(i))
      && Fits(es[i], l.Item(i))
      && (i + 1 < |es| ==> l.Gap(i + 1) != [] || es[i].List? || es[i + 1].List?)
      && ItemsFit(es, l, i + 1)
  }

  /** A character that ends a token: whitespace or a parenthesis, or the end of the input. */
  predicate Delimits(r: string)
  {
    r == [] || IsSpace(r[0]) || r[0] == '(' || r[0] == ')'
  }

  /** Written-out text starts with the token itself or with `(`, never with whitespace. */
  lemma RenderStart(e: Ast.Expr, l: Layout)
    requires Fits(e, l)
    ensures Render(e, l) != [] && !IsSpace(Render(e, l)[0])
    ensures Render(e, l)[0] == '(' <==> e.List?
  {
    match e
    case Atom(a) =>
    case Ident(x) => if IsSpace(x.text[0]) || x.text[0] == '(' { Delimiter(x.text[0]); }
    case List(es) =>
  }

  /** What `expr` leaves after a tree: a list also skips the whitespace after it. */
  function After(e: Ast.Expr, r: string): string
  {
    if e.List? then SkipSpace(r) else r
  }

  /**
   * The round trip: a written-out tree, followed by text that cannot continue
   * its last token, parses back to the tree.
   */
  lemma {:induction false} ExprRoundTrip(e: Ast.Expr, l: Layout, r: string)
    requires Fits(e, l)
    requires e.List? || Delimits(r)
    decreases e, 0
    ensures ParseExpr(Render(e, l) + r) == Success(e, After(e, r))
  {
    match e
    case Atom(a) => AtomRoundTrip(a, r);
    case Ident(x) => IdentRoundTrip(x, r);
    case List(es) =>
      var s := Render(e, l) + r;
      ListRoundTrip(es, l, r);
      assert s[0] == '(';
      Delimiter('(');
      OtherStartIsList(s);
  }

  /** An atom's text followed by a delimiter parses back to the atom. */
  lemma AtomRoundTrip(a: Ast.Atom, r: string)
    requires IsAtomText(a.text) && Delimits(r)
    ensures ParseExpr(a.text + r) == Success(Ast.Expr.Atom(a), r)
  {
    var s := a.text + r;
    if r != [] { Delimiter(r[0]); }
    AtomFromSplit(s, a.text, r);
    ExprIsUnionOfAlternatives(s);
  }

  /** An identifier's text followed by a delimiter parses back to the identifier. */
  lemma IdentRoundTrip(x: Ast.Ident, r: string)
    requires IsIdentText(x.text) && Delimits(r)
    ensures ParseExpr(x.text + r) == Success(Ast.Expr.Ident(x), r)
  {
    var s := x.text + r;
    if r != [] {
      Delimiter(r[0]);
      assert !IsIdentStart((x.text + [r[0]])[|x.text|]);
    }
    IdentFromSplit(s, x.text, r);
    QuoteOrIdent(s);
    ExprIsUnionOfAlternatives(s);
  }

  /** On text that starts with an identifier character, `atom` fails. */
  lemma QuoteOrIdent(s: string)
    requires s != [] && IsIdentStart(s[0])
    ensures ParseAtom(s).Failure?
  {
    Delimiter('\'');
  }

  /** A written-out list parses back to its elements, and skips the whitespace after it. */
  lemma {:induction false} ListRoundTrip(es: seq<Ast.Expr>, l: Layout, r: string)
    requires Fits(Ast.Expr.List(es), l)
    decreases es, |es| + 1
    ensures ParseList(Render(Ast.Expr.List(es), l) + r) == Success(es, SkipSpace(r))
  {
    var items := RenderFrom(es, l, 0);
    var tail := l.Trail() + (")" + r);
    var s := Render(Ast.Expr.List(es), l) + r;
    ListText(es, l, r);
    CloseEndsElements(r);
    ElementsRoundTrip(es, l, 0, items + tail, tail);
    assert (")" + r)[1..] == r;
    ListFromSteps(s);
    assert es[0..] == es;
  }

  /** The shape of a written-out list: `(`, the elements, then the whitespace before `)`, `)` and what follows. */
  lemma ListText(es: seq<Ast.Expr>, l: Layout, r: string)
    requires AllIn(IsSpace, l.Trail())
    ensures var s := Render(Ast.Expr.List(es), l) + r;
      var tail := l.Trail() + (")" + r);
      && SkipSpace(s) == s && s != [] && s[0] == '('
      && s[1..] == RenderFrom(es, l, 0) + tail
      && Delimits(tail) && SkipSpace(tail) == ")" + r
  {
    var items := RenderFrom(es, l, 0);
    var tail := l.Trail() + (")" + r);
    var s := "(" + (items + tail);
    Regroup("(", items, l.Trail(), ")");
    Regroup("(", items, l.Trail() + ")", r);
    assert Render(Ast.Expr.List(es), l) + r == s;
    SkipSpaceExact([], s);
    assert s[1..] == items + tail;
    Delimiter(')');
    SkipSpaceExact(l.Trail(), ")" + r);
  }

  /** `expr` does not start at a `)`. */
  lemma CloseEndsElements(r: string)
    ensures ParseExpr(")" + r).Failure?
  {
    ExprStart(")" + r);
    Delimiter(')');
  }

  /**
   * The elements `es[i..]` of a written-out list, followed by text at which
   * `expr` fails, are parsed in order; what is left, after whitespace, is
   * that text.
   */
  lemma {:induction false} ElementsRoundTrip(es: seq<Ast.Expr>, l: Layout, i: nat, x: string, tail: string)
    requires i <= |es| && ItemsFit(es, l, i)
    requires SkipSpace(x) == SkipSpace(RenderFrom(es, l, i) + tail)
    requires Delimits(tail) && ParseExpr(SkipSpace(tail)).Failure?
    decreases es, |es| - i, 2
    ensures ParseElements(x).0 == es[i..]
    ensures SkipSpace(ParseElements(x).1) == SkipSpace(tail)
  {
    if i == |es| {
      ElementsEnd(es, l, x, tail);
    } else {
      ElementsFrom(es, l, i, x, tail);
    }
  }

  /** ElementsRoundTrip when there is an element left: it is parsed, then the rest. */
  lemma {:induction false} ElementsFrom(es: seq<Ast.Expr>, l: Layout, i: nat, x: string, tail: string)
    requires i < |es| && ItemsFit(es, l, i)
    requires SkipSpace(x) == SkipSpace(RenderFrom(es, l, i) + tail)
    requires Delimits(tail) && ParseExpr(SkipSpace(tail)).Failure?
    decreases es, |es| - i, 1
    ensures ParseElements(x).0 == es[i..]
    ensures SkipSpace(ParseElements(x).1) == SkipSpace(tail)
  {
    var afterElem := ElementHead(es, l, i, x, tail);
    ElementsRoundTrip(es, l, i + 1, afterElem, tail);
    ElementsCons(es, i, x, afterElem);
  }

  /** An element parsed at the front, followed by the parsed rest, gives the elements from `i` on. */
  lemma ElementsCons(es: seq<Ast.Expr>, i: nat, x: string, afterElem: string)
    requires i < |es|
    requires ParseExpr(SkipSpace(x)) == Success(es[i], afterElem)
    requires ParseElements(afterElem).0 == es[i + 1..]
    ensures ParseElements(x) == (es[i..], ParseElements(afterElem).1)
  {
    ElementsTake(x, es[i], afterElem);
    SliceHead(es, i);
  }

  /** A slice is its first element followed by the rest. */
  lemma SliceHead(es: seq<Ast.Expr>, i: nat)
    requires i < |es|
    ensures es[i..] == [es[i]] + es[i + 1..]
  {
  }

  /** Past the last element, the element loop stops at the tail. */
  lemma ElementsEnd(es: seq<Ast.Expr>, l: Layout, x: string, tail: string)
    requires SkipSpace(x) == SkipSpace(RenderFrom(es, l, |es|) + tail)
    requires ParseExpr(SkipSpace(tail)).Failure?
    ensures ParseElements(x) == ([], x) && SkipSpace(x) == SkipSpace(tail)
  {
    assert RenderFrom(es, l, |es|) + tail == tail;
    ElementsStop(x);
  }

  /**
   * The first of the elements `es[i..]` is parsed back; what follows it,
   * after whitespace, is the rest of the written-out elements and the tail.
   */
  lemma {:induction false} ElementHead(es: seq<Ast.Expr>, l: Layout, i: nat, x: string, tail: string)
    returns (afterElem: string)
    requires i < |es| && ItemsFit(es, l, i)
    requires SkipSpace(x) == SkipSpace(RenderFrom(es, l, i) + tail)
    requires Delimits(tail)
    decreases es, |es| - i, 0
    ensures ParseExpr(SkipSpace(x)) == Success(es[i], afterElem)
    ensures SkipSpace(afterElem) == SkipSpace(RenderFrom(es, l, i + 1) + tail)
  {
    var e, more := es[i], RenderFrom(es, l, i + 1);
    var text := Render(e, l.Item(i));
    assert RenderFrom(es, l, i) == l.Gap(i) + text + more;
    Regroup(l.Gap(i), text, more, tail);
    SkipSpaceAfterSpaces(l.Gap(i), text + (more + tail));
    RenderStart(e, l.Item(i));
    SkipSpaceExact([], text + (more + tail));
    if !e.List? {
      NextDelimits(es, l, i, tail);
    }
    ExprRoundTrip(e, l.Item(i), more + tail);
    afterElem := After(e, more + tail);
    SkipSpaceIdempotent(more + tail);
  }

  /** After an element that is not a list, the written-out text goes on with whitespace, `(` or the tail. */
  lemma NextDelimits(es: seq<Ast.Expr>, l: Layout, i: nat, tail: string)
    requires i < |es| && ItemsFit(es, l, i) && !es[i].List?
    requires Delimits(tail)
    ensures Delimits(RenderFrom(es, l, i + 1) + tail)
  {
    if i + 1 < |es| {
      var g, t, m := l.Gap(i + 1), Render(es[i + 1], l.Item(i + 1)), RenderFrom(es, l, i + 2);
      assert RenderFrom(es, l, i + 1) == g + t + m;
      Regroup(g, t, m, tail);
      RenderStart(es[i + 1], l.Item(i + 1));
      if g == [] {
        assert g + (t + (m + tail)) == t + (m + tail);
      }
    } else {
      assert RenderFrom(es, l, i + 1) == [];
    }
  }

  /** Written-out text on its own is consumed completely. */
  lemma RenderParsesFully(e: Ast.Expr, l: Layout)
    requires Fits(e, l)
    ensures ParseExpr(Render(e, l)) == Success(e, [])
  {
    ExprRoundTrip(e, l, []);
    assert Render(e, l) + [] == Render(e, l);
  }

  /** A written-out list whose closing `)` is missing does not parse. */
  lemma MissingCloseFails(es: seq<Ast.Expr>, l: Layout)
    requires Fits(Ast.Expr.List(es), l)
    ensures ParseExpr("(" + RenderFrom(es, l, 0) + l.Trail()).Failure?
  {
    var trail := l.Trail();
    var body := RenderFrom(es, l, 0) + trail;
    var s := "(" + body;
    assert "(" + RenderFrom(es, l, 0) + trail == s;
    SkipSpaceExact([], s);
    assert s[1..] == body;
    SkipSpaceExact(trail, []);
    assert trail + [] == trail;
    ExprStart([]);
    ElementsRoundTrip(es, l, 0, body, trail);
    ListSteps(s);
    Delimiter('(');
    OtherStartIsList(s);
  }

  /** A written-out tree followed by one `)` too many parses, leaving that `)` unread. */
  lemma ExtraCloseLeftOver(e: Ast.Expr, l: Layout)
    requires Fits(e, l)
    ensures ParseExpr(Render(e, l) + ")") == Success(e, ")")
  {
    assert After(e, ")") == ")" by {
      Delimiter(')');
      SkipSpaceExact([], ")");
      assert [] + ")" == ")";
    }
    ExprRoundTrip(e, l, ")");
  }

  /** Whitespace does not matter: two layouts of the same tree parse to the same result. */
  lemma LayoutIrrelevant(e: Ast.Expr, l1: Layout, l2: Layout)
    requires Fits(e, l1) && Fits(e, l2)
    ensures ParseExpr(Render(e, l1)) == ParseExpr(Render(e, l2))
  {
    RenderParsesFully(e, l1);
    RenderParsesFully(e, l2);
  }
}
