/**
 * The pieces of the nom combinator library that the grammar in
 * src/parser.rs is built from, specialised to complete (non-streaming) text.
 *
 * A parser maps its input to `Failure` or to `Success(value, rest)`, where
 * `rest` is the input left after the match. nom's error kinds and error
 * positions are collapsed into the single `Failure`, and because the input
 * is a `CompleteStr` there is no "need more input" outcome.
 */
module Nom {

  datatype ParseResult<T> = Failure | Success(value: T, rest: string)

  /** Every character of `s` is in the class `p`. */
  predicate AllIn(p: char -> bool, s: string)
  {
    forall i :: 0 <= i < |s| ==> p(s[i])
  }

  /** `r` is what is left of `s` after some prefix of it has been consumed. */
  predicate IsSuffixOf(r: string, s: string)
  {
    |r| <= |s| && s[|s| - |r|..] == r
  }

  /** Concatenation is associative; stated once so that proofs can regroup text cheaply. */
  lemma Regroup(a: string, b: string, c: string, d: string)
    ensures a + b + c + d == a + (b + (c + d))
  {
  }

  /** A suffix of a suffix is a suffix. */
  lemma SuffixOfSuffix(a: string, b: string, c: string)
    requires IsSuffixOf(a, b) && IsSuffixOf(b, c)
    ensures IsSuffixOf(a, c)
  {
    assert c[|c| - |a|..] == c[|c| - |b|..][|b| - |a|..];
  }

  /** What follows a prefix is a suffix. */
  lemma AfterPrefix(t: string, r: string)
    ensures IsSuffixOf(r, t + r)
  {
    assert (t + r)[|t|..] == r;
  }

  /** Dropping the first character leaves a suffix. */
  lemma DropFirst(s: string)
    requires s != []
    ensures IsSuffixOf(s[1..], s)
  {
  }

  /** The text a parser consumed from `s` when it left `rest`: nom's `recognize!`. */
  function Recognize(s: string, rest: string): (t: string)
    requires IsSuffixOf(rest, s)
    ensures t + rest == s
  {
    s[..|s| - |rest|]
  }

  /** `char!(c)`: the single character `c`. */
  function Char(c: char, s: string): (r: ParseResult<char>)
    ensures r.Success? <==> |s| > 0 && s[0] == c
    ensures r.Success? ==> r.value == c && r.rest == s[1..]
  {
    if |s| > 0 && s[0] == c then Success(c, s[1..]) else Failure
  }

  /**
   * `take_while!(p)`: the longest prefix of `s` all in `p`, and what follows
   * it. On complete input it never fails.
   */
  function TakeWhile(p: char -> bool, s: string): (r: (string, string))
    ensures r.0 + r.1 == s
    ensures AllIn(p, r.0)
    ensures r.1 == [] || !p(r.1[0])
  {
    if s != [] && p(s[0]) then
      var (run, rest) := TakeWhile(p, s[1..]);
      ([s[0]] + run, rest)
    else
      ([], s)
  }

  /** The three properties in TakeWhile's contract pin its result down. */
  lemma {:induction false} TakeWhileUnique(p: char -> bool, s: string, t: string, r: string)
    requires t + r == s && AllIn(p, t) && (r == [] || !p(r[0]))
    ensures TakeWhile(p, s) == (t, r)
  {
    if t != [] {
      assert s[0] == t[0] && s[1..] == t[1..] + r;
      assert p(s[0]) && AllIn(p, t[1..]);
      TakeWhileUnique(p, s[1..], t[1..], r);
      assert [t[0]] + t[1..] == t;
    } else {
      assert r == s;
    }
  }

  /** `take_while1!(p)`: like TakeWhile, but fails unless the run is non-empty. */
  function TakeWhile1(p: char -> bool, s: string): (r: ParseResult<string>)
    ensures r.Success? <==> |s| > 0 && p(s[0])
    ensures r.Success? ==> |r.value| > 0 && r.value + r.rest == s && AllIn(p, r.value)
    ensures r.Success? ==> r.rest == [] || !p(r.rest[0])
  {
    var (run, rest) := TakeWhile(p, s);
    if run == [] then Failure else Success(run, rest)
  }

  /**
   * The separator nom's `sp` recognises, and so the whitespace that `ws!`
   * skips: space, tab, carriage return and line feed. The nom library is not
   * part of this model; this set is taken as an assumption about it.
   */
  predicate IsSpace(c: char)
  {
    c == ' ' || c == '\t' || c == '\r' || c == '\n'
  }

  /** What is left of `s` after `sp` has skipped its leading whitespace. */
  function SkipSpace(s: string): (r: string)
    ensures IsSuffixOf(r, s)
    ensures AllIn(IsSpace, s[..|s| - |r|])
    ensures r == [] || !IsSpace(r[0])
  {
    var (spaces, rest) := TakeWhile(IsSpace, s);
    assert s[..|s| - |rest|] == spaces;
    rest
  }

  /** Whitespace followed by text that does not start with whitespace skips to that text. */
  lemma SkipSpaceExact(w: string, x: string)
    requires AllIn(IsSpace, w) && (x == [] || !IsSpace(x[0]))
    ensures SkipSpace(w + x) == x
  {
    TakeWhileUnique(IsSpace, w + x, w, x);
  }

  /** Skipping is insensitive to whitespace already in front of the text. */
  lemma SkipSpaceAfterSpaces(w: string, x: string)
    requires AllIn(IsSpace, w)
    ensures SkipSpace(w + x) == SkipSpace(x)
  {
    var y := SkipSpace(x);
    var skipped := x[..|x| - |y|];
    assert x == skipped + y;
    assert w + x == (w + skipped) + y;
    SkipSpaceExact(w + skipped, y);
  }

  /** Skipping twice is skipping once. */
  lemma SkipSpaceIdempotent(s: string)
    ensures SkipSpace(SkipSpace(s)) == SkipSpace(s)
  {
    var y := SkipSpace(s);
    assert [] + y == y;
    SkipSpaceExact([], y);
  }
}
