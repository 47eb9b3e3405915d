/**
 * The acceptance rule of the test macro `test_parser!` in src/parser.rs.
 * The input literal is trimmed with Rust's `str::trim` and handed to a parser.
 * `ok` means the parser succeeded and read everything.
 * `err` means anything else, including a success that leaves input unread.
 */
module Harness {
  import opened Nom

  /** Rust's `char::is_whitespace`: the Unicode White_Space property. */
  predicate IsWhiteSpace(c: char)
    ensures IsSpace(c) ==> IsWhiteSpace(c)
  {
    || ('\U{0009}' <= c <= '\U{000D}')
    || c == ' ' || c == '\U{0085}' || c == '\U{00A0}' || c == '\U{1680}'
    || ('\U{2000}' <= c <= '\U{200A}')
    || c == '\U{2028}' || c == '\U{2029}' || c == '\U{202F}' || c == '\U{205F}' || c == '\U{3000}'
  }

  /** `str::trim_start`: `s` without its leading whitespace. */
  function TrimStart(s: string): (r: string)
    ensures IsSuffixOf(r, s)
    ensures AllIn(IsWhiteSpace, s[..|s| - |r|])
    ensures r == [] || !IsWhiteSpace(r[0])
  {
    var (lead, rest) := TakeWhile(IsWhiteSpace, s);
    assert s[..|s| - |rest|] == lead;
    rest
  }

  /** `str::trim_end`: `s` without its trailing whitespace. */
  function TrimEnd(s: string): (r: string)
    ensures |r| <= |s| && s[..|r|] == r
    ensures AllIn(IsWhiteSpace, s[|r|..])
    ensures r == [] || !IsWhiteSpace(r[|r| - 1])
  {
    if s != [] && IsWhiteSpace(s[|s| - 1]) then
      var r := TrimEnd(s[..|s| - 1]);
      assert s[|r|..] == s[..|s| - 1][|r|..] + [s[|s| - 1]];
      r
    else
      s
  }

  /** `str::trim`: `s` without whitespace at either end. */
  function Trim(s: string): (r: string)
    ensures r == [] || (!IsWhiteSpace(r[0]) && !IsWhiteSpace(r[|r| - 1]))
  {
    TrimEnd(TrimStart(s))
  }

  /** Trailing whitespace is exactly what TrimEnd removes. */
  lemma {:induction false} TrimEndExact(m: string, b: string)
    requires AllIn(IsWhiteSpace, b)
    requires m == [] || !IsWhiteSpace(m[|m| - 1])
    decreases |b|
    ensures TrimEnd(m + b) == m
  {
    if b == [] {
      assert m + b == m;
    } else {
      var b' := b[..|b| - 1];
      assert (m + b)[..|m + b| - 1] == m + b';
      TrimEndExact(m, b');
    }
  }

  /**
   * Whatever whitespace surrounds a text that neither starts nor ends with
   * whitespace, Trim gives back that text.
   */
  lemma TrimExact(a: string, m: string, b: string)
    requires AllIn(IsWhiteSpace, a) && AllIn(IsWhiteSpace, b)
    requires m == [] || (!IsWhiteSpace(m[0]) && !IsWhiteSpace(m[|m| - 1]))
    ensures Trim(a + m + b) == m
  {
    if m == [] {
      assert AllIn(IsWhiteSpace, a + b);
      assert a + m + b == (a + b) + [];
      TakeWhileUnique(IsWhiteSpace, a + m + b, a + b, []);
      TrimEndExact([], []);
    } else {
      assert a + m + b == a + (m + b);
      TakeWhileUnique(IsWhiteSpace, a + m + b, a, m + b);
      TrimEndExact(m, b);
    }
  }

  /** Trim does nothing more when applied twice. */
  lemma TrimIdempotent(s: string)
    ensures Trim(Trim(s)) == Trim(s)
  {
    var m := Trim(s);
    assert [] + m + [] == m;
    TrimExact([], m, []);
  }

  /** `test_parser!(p(input) -> ok)`: the trimmed input parses and nothing is left. */
  predicate PassesOk<T>(parser: string -> ParseResult<T>, input: string)
  {
    var r := parser(Trim(input));
    r.Success? && r.rest == []
  }

  /** `test_parser!(p(input) -> err)`: the parse fails, or it leaves input unread. */
  predicate PassesErr<T>(parser: string -> ParseResult<T>, input: string)
    ensures PassesErr(parser, input) <==> !PassesOk(parser, input)
  {
    match parser(Trim(input))
    case Success(_, rest) => rest != []
    case Failure => true
  }

  /** `test_parser!(p(input) -> ok, expected)`: as `ok`, and the result equals `expected`. */
  predicate PassesOkWith<T(==)>(parser: string -> ParseResult<T>, input: string, expected: T)
    ensures PassesOkWith(parser, input, expected) ==> PassesOk(parser, input)
  {
    var r := parser(Trim(input));
    r.Success? && r.rest == [] && r.value == expected
  }
}
