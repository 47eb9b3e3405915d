/**
 * What every successful parse guarantees about its result, for every input:
 * the tree holds only text the token rules accept, and the text consumed has
 * as many `(` as `)`. The second gives the rejection of unbalanced input that
 * the unmatched-parenthesis tests of src/parser.rs check on two examples.
 */
module Soundness {
  import opened Nom
  import opened Parser
  import opened ParserSpec
  import Ast
  import Harness

  /** Every atom and identifier in the tree holds text of its token's shape. */
  predicate WellFormed(e: Ast.Expr)
  {
    match e
    case Atom(a) => IsAtomText(a.text)
    case Ident(x) => IsIdentText(x.text)
    case List(es) => AllWellFormed(es)
  }

  predicate AllWellFormed(es: seq<Ast.Expr>)
  {
    es == [] || (WellFormed(es[0]) && AllWellFormed(es[1..]))
  }

  function Delta(c: char): int
  {
    if c == '(' then 1 else if c == ')' then -1 else 0
  }

  /** The number of `(` in `s` minus the number of `)`. */
  function Balance(s: string): int
  {
    if s == [] then 0 else Delta(s[0]) + Balance(s[1..])
  }

  lemma {:induction false} BalanceAppend(a: string, b: string)
    ensures Balance(a + b) == Balance(a) + Balance(b)
  {
    if a != [] {
      assert (a + b)[1..] == a[1..] + b;
      BalanceAppend(a[1..], b);
    } else {
      assert a + b == b;
    }
  }

  lemma BalanceCons(s: string)
    requires s != []
    ensures Balance(s) == Delta(s[0]) + Balance(s[1..])
  {
  }

  /** Text with no parenthesis in it is balanced. */
  lemma {:induction false} BalanceWithoutParens(t: string)
    requires forall i :: 0 <= i < |t| ==> t[i] != '(' && t[i] != ')'
    ensures Balance(t) == 0
  {
    if t != [] {
      BalanceWithoutParens(t[1..]);
    }
  }

  /** Consuming text without parentheses leaves the balance as it was. */
  lemma BalanceAfterToken(s: string, t: string, r: string)
    requires t + r == s
    requires forall i :: 0 <= i < |t| ==> t[i] != '(' && t[i] != ')'
    ensures Balance(s) == Balance(r)
  {
    BalanceWithoutParens(t);
    BalanceAppend(t, r);
  }

  lemma BalanceSkipSpace(s: string)
    ensures Balance(SkipSpace(s)) == Balance(s)
  {
    var r := SkipSpace(s);
    var t := Recognize(s, r);
    assert AllIn(IsSpace, t);
    BalanceAfterToken(s, t, r);
  }

  /** Identifier text has no parenthesis in it. */
  lemma IdentTextHasNoParens(t: string)
    requires IsIdentText(t)
    ensures forall i :: 0 <= i < |t| ==> t[i] != '(' && t[i] != ')'
  {
    forall i | 0 <= i < |t|
      ensures t[i] != '(' && t[i] != ')'
    {
      assert IsIdentStart(t[i]) || IsIdentRest(t[i]);
    }
  }

  /** `expr` yields well-formed trees and consumes balanced text. */
  lemma {:induction false} ExprSound(s: string)
    decreases |s|, 1
    ensures ParseExpr(s).Success? ==>
      WellFormed(ParseExpr(s).value) && Balance(s) == Balance(ParseExpr(s).rest)
  {
    match ParseAtom(s)
    case Success(a, rest) =>
      assert forall i :: 1 <= i < |a.text| ==> IsAtomChar(a.text[i]);
      BalanceAfterToken(s, a.text, rest);
    case Failure =>
      match ParseIdent(s)
      case Success(x, rest) =>
        IdentTextHasNoParens(x.text);
        BalanceAfterToken(s, x.text, rest);
      case Failure =>
        ListSound(s);
  }

  /** `list` yields well-formed elements and consumes balanced text. */
  lemma {:induction false} ListSound(s: string)
    decreases |s|, 0
    ensures ParseList(s).Success? ==>
      AllWellFormed(ParseList(s).value) && Balance(s) == Balance(ParseList(s).rest)
  {
    ListSteps(s);
    if ParseList(s).Success? {
      var afterOpen := SkipSpace(s)[1..];
      ElementsSound(afterOpen);
      BracketsCancel(s, ParseElements(afterOpen).1);
    }
  }

  /** Brackets around balanced text, with whitespace around them, cancel. */
  lemma BracketsCancel(s: string, afterElems: string)
    requires SkipSpace(s) != [] && SkipSpace(s)[0] == '('
    requires SkipSpace(afterElems) != [] && SkipSpace(afterElems)[0] == ')'
    requires Balance(SkipSpace(s)[1..]) == Balance(afterElems)
    ensures Balance(s) == Balance(SkipSpace(SkipSpace(afterElems)[1..]))
  {
    var s1, s2 := SkipSpace(s), SkipSpace(afterElems);
    BalanceSkipSpace(s);
    BalanceCons(s1);
    BalanceSkipSpace(afterElems);
    BalanceCons(s2);
    BalanceSkipSpace(s2[1..]);
  }

  /** The elements of a list are well-formed and consume balanced text. */
  lemma {:induction false} ElementsSound(s: string)
    decreases |s|, 2
    ensures AllWellFormed(ParseElements(s).0)
    ensures Balance(s) == Balance(ParseElements(s).1)
  {
    var s1 := SkipSpace(s);
    BalanceSkipSpace(s);
    ExprSound(s1);
    match ParseExpr(s1)
    case Failure =>
    case Success(e, afterElem) =>
      ElementsSound(afterElem);
      var more := ParseElements(afterElem).0;
      assert ParseElements(s).0 == [e] + more;
      assert ([e] + more)[1..] == more;
  }

  /** Text that parses completely has as many `(` as `)`. */
  lemma FullParseIsBalanced(s: string)
    requires ParseExpr(s).Success? && ParseExpr(s).rest == []
    ensures Balance(s) == 0
  {
    ExprSound(s);
  }

  /**
   * An input that passes `test_parser!(expr(input) -> ok)` has as many `(` as
   * `)`: what `str::trim` removes is whitespace, which holds no parenthesis.
   */
  lemma PassesOkIsBalanced(input: string)
    requires Harness.PassesOk(ParseExpr, input)
    ensures Balance(input) == 0
  {
    FullParseIsBalanced(Harness.Trim(input));
    TrimKeepsBalance(input);
  }

  /** Trimming whitespace leaves the balance unchanged. */
  lemma TrimKeepsBalance(input: string)
    ensures Balance(Harness.Trim(input)) == Balance(input)
  {
    var t := Harness.TrimStart(input);
    var m := Harness.Trim(input);
    var lead, trail := input[..|input| - |t|], t[|m|..];
    WhiteSpaceIsBalanced(lead);
    WhiteSpaceIsBalanced(trail);
    assert t == m + trail;
    assert input == lead + (m + trail);
    BalanceAppend(lead, m + trail);
    BalanceAppend(m, trail);
  }

  /** Whitespace, in the sense of `str::trim`, holds no parenthesis. */
  lemma WhiteSpaceIsBalanced(w: string)
    requires AllIn(Harness.IsWhiteSpace, w)
    ensures Balance(w) == 0
  {
    forall i | 0 <= i < |w|
      ensures w[i] != '(' && w[i] != ')'
    {
      assert Harness.IsWhiteSpace(w[i]);
    }
    BalanceWithoutParens(w);
  }
}
