/**
 * The syntax tree the parser builds (src/ast.rs).
 *
 * `Atom` and `Ident` are one-field wrappers around the matched text; `Expr`
 * is the three-variant tree. In the source the text is a slice borrowed from
 * the input; here it is a string value, and the parser's contracts say which
 * part of the input it is.
 */
module Ast {

  /** A quoted symbol such as `'ratatouille`; the text keeps the quote. */
  datatype Atom = Atom(text: string)

  /** A name or operator such as `car`, `add1` or `+`. */
  datatype Ident = Ident(text: string)

  /** One parsed form: an atom, an identifier, or a list of forms of any length and depth. */
  datatype Expr =
    | Atom(atom: Atom)
    | Ident(ident: Ident)
    | List(elems: seq<Expr>)

  /**
   * The equality that `#[derive(PartialEq)]` gives `Expr`: same variant, and
   * then equal text, or element sequences of the same length that are equal
   * element by element.
   */
  predicate DerivedEq(a: Expr, b: Expr)
  {
    match (a, b)
    case (Atom(x), Atom(y)) => x.text == y.text
    case (Ident(x), Ident(y)) => x.text == y.text
    case (List(xs), List(ys)) =>
      |xs| == |ys| && forall i :: 0 <= i < |xs| ==> DerivedEq(xs[i], ys[i])
    case _ => false
  }

  /** The derived equality is exactly value equality on the tree. */
  lemma {:induction false} DerivedEqIsEquality(a: Expr, b: Expr)
    ensures DerivedEq(a, b) <==> a == b
  {
    match (a, b)
    case (List(xs), List(ys)) =>
      if |xs| == |ys| {
        forall i | 0 <= i < |xs|
          ensures DerivedEq(xs[i], ys[i]) <==> xs[i] == ys[i]
        {
          DerivedEqIsEquality(xs[i], ys[i]);
        }
        if forall i :: 0 <= i < |xs| ==> DerivedEq(xs[i], ys[i]) {
          assert xs == ys;
        }
      }
    case (_, _) =>
  }

  /** An atom and an identifier with the same text are different values. */
  lemma AtomIsNotIdent(t: string)
    ensures Expr.Atom(Atom.Atom(t)) != Expr.Ident(Ident.Ident(t))
    ensures !DerivedEq(Expr.Atom(Atom.Atom(t)), Expr.Ident(Ident.Ident(t)))
  {
  }
}
