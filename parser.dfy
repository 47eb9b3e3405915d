/**
 * The grammar of src/parser.rs: the rules `atom`, `ident`, `expr` and `list`.
 *
 * Each rule is a function from the input text to `Failure` or to the parsed
 * value and the input it left unread. The input is a plain string: the
 * position tracking of the source (`LocatedSpan`) is never read by the rules.
 */
module Parser {
  import opened Nom
  import Ast

  // Character classes. Only ASCII characters are in any class.

  predicate IsAsciiAlphabetic(c: char)
  {
    'A' <= c <= 'Z' || 'a' <= c <= 'z'
  }

  predicate IsAsciiAlphanumeric(c: char)
  {
    IsAsciiAlphabetic(c) || '0' <= c <= '9'
  }

  /** What may follow the quote of an atom: a letter or `-`. */
  predicate IsAtomChar(c: char)
    ensures IsAtomChar(c) ==> c as int < 128
  {
    IsAsciiAlphabetic(c) || c == '-'
  }

  // The class of an identifier's first run: a letter or one of +-!$%&*/:<=>?~_^

  predicate IsIdentStart(c: char)
    ensures IsIdentStart(c) ==> c as int < 128
  {
    IsAsciiAlphabetic(c) || c in "+-!$%&*/:<=>?~_^"
  }

  /** The class of an identifier's second run: a letter, a digit or one of `.+-`. */
  predicate IsIdentRest(c: char)
    ensures IsIdentRest(c) ==> c as int < 128
  {
    IsAsciiAlphanumeric(c) || c in ".+-"
  }

  /** Text an atom can hold: the quote and then one or more atom characters. */
  predicate IsAtomText(t: string)
  {
    |t| >= 2 && t[0] == '\'' && AllIn(IsAtomChar, t[1..])
  }

  /**
   * Text an identifier can hold: a non-empty run of first-class characters
   * and then a run of second-class ones. Stated without the split point:
   * the first character is first-class, and from the first character that is
   * not first-class on, every character is second-class.
   */
  predicate IsIdentText(t: string)
  {
    && |t| > 0 && IsIdentStart(t[0])
    && forall i, j :: 0 <= i <= j < |t| && !IsIdentStart(t[i]) ==> IsIdentRest(t[j])
  }

  /**
   * The rule `atom`: a quote, then a non-empty run of atom characters. The
   * atom's text is everything matched, quote included.
   */
  function ParseAtom(s: string): (r: ParseResult<Ast.Atom>)
    ensures r.Success? <==> |s| >= 2 && s[0] == '\'' && IsAtomChar(s[1])
    ensures r.Success? ==> r.value.text + r.rest == s && IsAtomText(r.value.text)
    ensures r.Success? ==> r.rest == [] || !IsAtomChar(r.rest[0])
  {
    match Char('\'', s)
    case Failure => Failure
    case Success(_, afterQuote) =>
      match TakeWhile1(IsAtomChar, afterQuote)
      case Failure => Failure
      case Success(run, rest) =>
        assert s == ['\''] + run + rest;
        Success(Ast.Atom.Atom(Recognize(s, rest)), rest)
  }

  /**
   * The rule `ident`: a non-empty greedy run of first-class characters, then
   * a greedy run (possibly empty) of second-class characters. The result is
   * the longest prefix of the input that is identifier text: appending the
   * next input character would not give identifier text.
   */
  function ParseIdent(s: string): (r: ParseResult<Ast.Ident>)
    ensures r.Success? <==> |s| > 0 && IsIdentStart(s[0])
    ensures r.Success? ==> r.value.text + r.rest == s && IsIdentText(r.value.text)
    ensures r.Success? ==> r.rest == [] || !IsIdentText(r.value.text + [r.rest[0]])
  {
    match TakeWhile1(IsIdentStart, s)
    case Failure => Failure
    case Success(head, afterHead) =>
      var (tail, rest) := TakeWhile(IsIdentRest, afterHead);
      IdentRuns(s, head, afterHead, tail, rest);
      Success(Ast.Ident.Ident(Recognize(s, rest)), rest)
  }

  /** What ParseIdent needs of its two runs, stated about the text it recognises. */
  lemma IdentRuns(s: string, head: string, afterHead: string, tail: string, rest: string)
    requires |head| > 0 && head + afterHead == s && AllIn(IsIdentStart, head)
    requires afterHead == [] || !IsIdentStart(afterHead[0])
    requires tail + rest == afterHead && AllIn(IsIdentRest, tail)
    requires rest == [] || !IsIdentRest(rest[0])
    ensures IsSuffixOf(rest, s)
    ensures IsIdentText(s[..|s| - |rest|])
    ensures rest == [] || !IsIdentText(s[..|s| - |rest|] + [rest[0]])
  {
    assert s == head + tail + rest;
    assert s[..|s| - |rest|] == head + tail;
    IdentRunsMakeIdentText(head, tail, rest);
  }

  /** The two runs ParseIdent takes make identifier text that cannot be extended. */
  lemma IdentRunsMakeIdentText(head: string, tail: string, rest: string)
    requires |head| > 0 && AllIn(IsIdentStart, head) && AllIn(IsIdentRest, tail)
    requires tail + rest == [] || !IsIdentStart((tail + rest)[0])
    requires rest == [] || !IsIdentRest(rest[0])
    ensures IsIdentText(head + tail)
    ensures rest == [] || !IsIdentText(head + tail + [rest[0]])
  {
    var t := head + tail;
    forall i, j | 0 <= i <= j < |t| && !IsIdentStart(t[i])
      ensures IsIdentRest(t[j])
    {
      assert i >= |head|;
    }
    if rest != [] {
      var t' := t + [rest[0]];
      if tail == [] {
        assert !IsIdentStart(t'[|t|]) && !IsIdentRest(t'[|t|]);
      } else {
        assert !IsIdentStart(t'[|head|]) && !IsIdentRest(t'[|t|]);
      }
    }
  }

  /**
   * The rule `expr`: the ordered choice of `atom`, then `ident`, then `list`.
   * Every success consumes at least one character, which is what makes the
   * recursion through `list` terminate.
   */
  function ParseExpr(s: string): (r: ParseResult<Ast.Expr>)
    decreases |s|, 1
    ensures r.Success? ==> |r.rest| < |s|
  {
    match ParseAtom(s)
    case Success(a, rest) => Success(Ast.Expr.Atom(a), rest)
    case Failure =>
      match ParseIdent(s)
      case Success(id, rest) => Success(Ast.Expr.Ident(id), rest)
      case Failure =>
        match ParseList(s)
        case Success(elems, rest) => Success(Ast.Expr.List(elems), rest)
        case Failure => Failure
  }

  /**
   * `many0!(expr)` inside `ws!`: whitespace, then an expression, as many
   * times as that succeeds. When an attempt fails, the input is left as it
   * was before that attempt's whitespace. It never fails.
   */
  function ParseElements(s: string): (r: (seq<Ast.Expr>, string))
    decreases |s|, 2
    ensures |r.1| <= |s|
  {
    match ParseExpr(SkipSpace(s))
    case Failure => ([], s)
    case Success(e, afterElem) =>
      var (more, rest) := ParseElements(afterElem);
      ([e] + more, rest)
  }

  /**
   * The rule `list`: `(`, the elements, `)`, with the whitespace that `ws!`
   * skips before each piece and after the whole.
   */
  function ParseList(s: string): (r: ParseResult<seq<Ast.Expr>>)
    decreases |s|, 0
    ensures r.Success? ==> |r.rest| < |s|
  {
    match Char('(', SkipSpace(s))
    case Failure => Failure
    case Success(_, afterOpen) =>
      var (elems, afterElems) := ParseElements(afterOpen);
      match Char(')', SkipSpace(afterElems))
      case Failure => Failure
      case Success(_, afterClose) => Success(elems, SkipSpace(afterClose))
  }
}
