# tea S-expression parser, modelled in Dafny

This project models the parser of `tea`, a small Lisp-like front end written in
Rust with the nom combinator library. There are four rules:

- `atom`: a quote, then one or more ASCII letters or `-`.
- `ident`: a run of first-class characters, then a run of second-class ones.
- `expr`: the ordered choice atom, ident, list.
- `list`: `(`, zero or more `expr`, then `)`, with whitespace skipped around the pieces.

The rules build the tree of `src/ast.rs`: `Atom`, `Ident`, and `Expr` with the
variants `Atom`, `Ident` and `List`. The unit tests accept a parse only when it
reads the whole trimmed input.

Each rule is a pure Dafny function. It takes a string and returns `Failure` or
`Success(value, rest)`, where `rest` is the unread input.

The project proves the following:
- what `atom` and `ident` accept, as "if and only if" statements, and which alternative `expr` takes on which first character;
- that the three alternatives of `expr` never overlap, so the first character decides the variant;
- that a successful parse leaves a strict suffix of its input;
- soundness: every parsed tree holds well-shaped tokens, and the text it read has as many `(` as `)`;
- completeness: any tree whose atoms and identifiers hold valid token text, written out with whitespace between its pieces (at least one whitespace character between two adjacent atoms or identifiers), parses back to exactly that tree, elements in order;
- the converse for `expr` and `list`: whatever they read is whitespace around a tree written out, its tokens in the input's order and nested as the input's parentheses are;
- the unit tests' verdicts.

Files and modules:
- `ast.dfy` (`Ast`): the tree, and the equality that `#[derive(PartialEq)]` gives it.
- `nom.dfy` (`Nom`): the nom pieces the grammar uses: `char!`, `take_while!`, `take_while1!`, `recognize!`, and the whitespace skipping of `ws!`.
- `parser.dfy` (`Parser`): the four rules and the loop of `many0!`.
- `parser_spec.dfy` (`ParserSpec`): independent characterisations of the rules.
- `soundness.dfy` (`Soundness`): well-formed trees and balanced parentheses.
- `layout.dfy` (`Layout`): writing a tree out with chosen whitespace, and the round trip back through `expr`.
- `inverse.dfy` (`Inverse`): the converse: what `expr` reads is a written-out tree.
- `harness.dfy` (`Harness`): Rust's `str::trim`, and the three verdicts of `test_parser!`.
- `tests.dfy` (`ParserTests`): the unit tests of `src/parser.rs` other than those below, one lemma per case.
- `expr_tests.dfy` (`ExprTests`): the multi-line `test_expr` cases after the first, one lemma per case. They expect `-> ok` without naming a tree; each lemma also names the tree the input parses to.

Modelling decisions:
- The whitespace that `ws!` skips is nom's `sp`: space, tab, `\r` and `\n`. The nom library is not part of this model, so this set is a named assumption (`Nom.IsSpace`).
- `str::trim` in the test macro strips Unicode White_Space (`Harness.IsWhiteSpace`). That is a different set.
- `many0!` inside `ws!` stops at the first failed attempt. It then returns the input as it was before that attempt's whitespace; the closing `)` is looked for after skipping that whitespace again.
- The atom text keeps the leading quote, as the code and its tests do (`Atom("'a")`).
- A stray `)` after a complete list does not make `expr` fail. `expr` succeeds and leaves the `)` unread, and the test macro's full-consumption check rejects the input (`Layout.ExtraCloseLeftOver`).
- The types derive only `PartialEq`/`Eq` (plus `Debug` and `Clone`). There is no ordering.
- The unit tests with multi-line inputs are stated for any whitespace in the places where the literal has a newline and indentation. The literal is one instance. Each lemma's comment says which whitespace the literal uses.
- `Layout.Layout`, `Layout.Render` and `Layout.Fits` are proof devices. They have no counterpart in the source. They describe the set of inputs the completeness theorem ranges over. `Inverse.Shaped` is the looser device for the converse: it also allows two tokens to touch.

## Model

| member | source | states |
|---|---|---|
| Nom.TakeWhile | src/parser.rs:17 | `take_while!`: the input splits into a run all in the class and a remainder that does not start with a class character |
| Nom.TakeWhileUnique | src/parser.rs:17 | any split with those three properties is the one `take_while!` returns: the run is the longest one |
| Nom.TakeWhile1 | src/parser.rs:16 | `take_while1!` succeeds exactly when the first character is in the class; it then returns a non-empty maximal run and the rest of the input |
| Nom.Char | src/parser.rs:29 | `char!(c)` succeeds exactly when the input starts with `c`, and consumes that one character |
| Nom.Recognize | src/parser.rs:15 | `recognize!` returns the consumed text: the consumed text followed by the rest is the input |
| Nom.SkipSpace | src/parser.rs:28 | the whitespace skipping of `ws!` leaves a suffix, removes only whitespace, and leaves text that does not start with whitespace |
| Nom.SkipSpaceExact | src/parser.rs:28 | whitespace followed by text that does not start with whitespace skips to exactly that text |
| Nom.SkipSpaceAfterSpaces | src/parser.rs:28 | extra whitespace in front does not change where skipping stops |
| Nom.SkipSpaceIdempotent | src/parser.rs:28 | skipping whitespace twice is the same as skipping it once |
| Parser.IsAtomChar | src/parser.rs:10 | the atom character class holds only ASCII characters |
| Parser.IsIdentStart | src/parser.rs:16 | the first-run class of `ident` holds only ASCII characters |
| Parser.IsIdentRest | src/parser.rs:17 | the second-run class of `ident` holds only ASCII characters |
| Parser.ParseAtom | src/parser.rs:9-12 | `atom` succeeds exactly when the input is a quote followed by a letter or `-`; the text it returns, quote included, followed by the rest is the input; the text is atom-shaped and the rest cannot continue it |
| Parser.ParseIdent | src/parser.rs:14-20 | `ident` succeeds exactly when the first character is first-class; the text it returns followed by the rest is the input; the text is identifier-shaped and adding the next input character would not be |
| Parser.IdentRuns | src/parser.rs:15-18 | the text `recognize!` takes over the two `take_while` runs is identifier text, and the longest identifier-text prefix of the input |
| Parser.IdentRunsMakeIdentText | src/parser.rs:16-17 | a maximal first-class run followed by a maximal second-class run is identifier text that cannot be extended by the next character |
| Parser.ParseExpr | src/parser.rs:22-26 | `expr` consumes at least one character whenever it succeeds, which is why the recursion through `list` ends |
| Parser.ParseElements | src/parser.rs:30 | the `many0!` loop never reads past its input |
| Parser.ParseList | src/parser.rs:28-32 | `list` consumes at least one character whenever it succeeds |
| ParserSpec.AtomSpec | src/parser.rs:9-12 | `atom` returns text `t` and rest `r` if and only if the input is `t + r`, `t` is a quote followed by one or more letters or hyphens, and `r` does not start with a letter or hyphen |
| ParserSpec.AtomFromSplit | src/parser.rs:9-12 | given such a split of the input, `atom` returns exactly that split |
| ParserSpec.AtomPrefixUnique | src/parser.rs:10 | an input has at most one split into atom text and a remainder that cannot continue it |
| ParserSpec.IdentTextPrefix | src/parser.rs:15-18 | every non-empty prefix of identifier text is identifier text |
| ParserSpec.ShorterIdentExtends | src/parser.rs:15-18 | the shorter of two identifier-text prefixes of one input can be extended by the next character |
| ParserSpec.IdentSpec | src/parser.rs:14-20 | `ident` returns text `t` and rest `r` if and only if the input is `t + r`, `t` is identifier text, and `t` plus the next character is not |
| ParserSpec.IdentFromSplit | src/parser.rs:14-20 | given such a split of the input, `ident` returns exactly that split |
| ParserSpec.IdentPrefixUnique | src/parser.rs:15-18 | an input has at most one split into identifier text that cannot be extended and a remainder |
| ParserSpec.IdentExtends | src/parser.rs:17 | identifier text followed by a second-class character is still identifier text |
| ParserSpec.IdentStopsAtNonRest | src/parser.rs:17 | what `ident` leaves never starts with a second-class character |
| ParserSpec.Delimiter | src/parser.rs:10-17 | the quote, the parentheses and whitespace are in none of the three token character classes |
| ParserSpec.ListStart | src/parser.rs:28-29 | a successful `list` input starts with `(` or whitespace |
| ParserSpec.NotListStart | src/parser.rs:28-29 | `list` fails on empty input and on input that starts with neither `(` nor whitespace |
| ParserSpec.AlternativesDisjoint | src/parser.rs:22-26 | on no input do two of `atom`, `ident` and `list` both succeed |
| ParserSpec.ExprIsUnionOfAlternatives | src/parser.rs:22-26 | `expr` succeeds if and only if one alternative does, and then returns that alternative's result; with the disjointness, the order of the choice does not matter |
| ParserSpec.QuoteStartsAtom | src/parser.rs:22-23 | on input starting with a quote, `expr` succeeds exactly when a letter or `-` follows, and then with an atom |
| ParserSpec.IdentStartGivesIdent | src/parser.rs:22-24 | on input starting with a first-class character, `expr` always succeeds, with `ident`'s result |
| ParserSpec.OtherStartIsList | src/parser.rs:22-25 | on any other input, `expr` is `list`: both succeed or fail together, with the same result |
| ParserSpec.ExprStart | src/parser.rs:22-32 | `expr` fails on empty input and on input starting with anything but a quote, a first-class character, `(` or whitespace |
| ParserSpec.ExprRestIsSuffix | src/parser.rs:9-32 | what a successful `expr` leaves is a strict suffix of its input |
| ParserSpec.ListRestIsSuffix | src/parser.rs:28-32 | what a successful `list` leaves is a suffix of its input |
| ParserSpec.ElementsRestIsSuffix | src/parser.rs:30 | what the `many0!` loop leaves is a suffix of its input |
| Soundness.ExprSound | src/parser.rs:9-32 | every tree `expr` returns holds atom-shaped atoms and identifier-shaped identifiers, and the text it consumed has as many `(` as `)` |
| Soundness.ListSound | src/parser.rs:28-32 | every element `list` returns is well-formed, and the text it consumed is balanced |
| Soundness.ElementsSound | src/parser.rs:30 | the elements of the `many0!` loop are well-formed and consume balanced text |
| Soundness.BracketsCancel | src/parser.rs:28-32 | the `(` and `)` that `list` consumes, with their surrounding whitespace, add nothing to the balance |
| Soundness.FullParseIsBalanced | src/parser.rs:94-103 | input that `expr` reads completely has as many `(` as `)` |
| Soundness.PassesOkIsBalanced | src/parser.rs:38-49 | an input that passes `test_parser!(expr(input) -> ok)` has as many `(` as `)`, trimmed whitespace included, so unbalanced input never passes `-> ok` |
| Soundness.BalanceAfterToken | src/parser.rs:9-20 | consuming a token, which contains no parentheses, leaves the balance unchanged |
| Soundness.BalanceSkipSpace | src/parser.rs:28 | skipping whitespace leaves the balance unchanged |
| Soundness.IdentTextHasNoParens | src/parser.rs:16-17 | identifier text contains no parenthesis |
| Layout.ExprRoundTrip | src/parser.rs:22-32 | any tree whose atoms and identifiers hold valid token text, written out with whitespace between its pieces (at least one whitespace character between two adjacent atoms or identifiers) and followed by a delimiter, parses back to exactly that tree |
| Layout.ListRoundTrip | src/parser.rs:28-32 | a written-out list parses back to its elements, and the whitespace after it is skipped |
| Layout.ElementsRoundTrip | src/parser.rs:30 | the `many0!` loop parses the written-out elements back in left-to-right order and stops before `)` |
| Layout.ElementHead | src/parser.rs:30 | the first written-out element is parsed back, and what follows is the rest of the elements |
| Layout.AtomRoundTrip | src/parser.rs:9-12 | atom text followed by a delimiter parses back to that atom |
| Layout.IdentRoundTrip | src/parser.rs:14-20 | identifier text followed by a delimiter parses back to that identifier |
| Layout.RenderParsesFully | src/parser.rs:107-117 | a written-out tree on its own is read completely, to that tree |
| Layout.MissingCloseFails | src/parser.rs:95-98 | a written-out list with its last `)` removed makes `expr` fail |
| Layout.ExtraCloseLeftOver | src/parser.rs:99-102 | a written-out tree followed by one `)` too many parses to the tree and leaves the `)` unread |
| Layout.LayoutIrrelevant | src/parser.rs:28-32 | two layouts of one tree parse to the same result: whitespace does not matter |
| Inverse.ExprReadsRendering | src/parser.rs:22-32 | whatever `expr` reads is whitespace, then the returned tree written out with token texts, gaps and trailing space all valid, then whitespace; only a list has whitespace around it |
| Inverse.ListReadsRendering | src/parser.rs:28-32 | whatever `list` reads is whitespace, `(`, its elements written out in order, whitespace, `)`, then whitespace |
| Inverse.ElementsReadRendering | src/parser.rs:30 | what the `many0!` loop reads, up to the whitespace before where it stops, is its elements written out in order with whitespace gaps |
| Inverse.TouchingTokens | src/parser.rs:14-32 | `(x'y)` parses to the identifier `x` followed by the atom `'y`: tokens need no whitespace between them |
| Harness.IsWhiteSpace | src/parser.rs:40 | every character that `ws!` skips is also whitespace to `str::trim` |
| Harness.PassesErr | src/parser.rs:50-59 | the `-> err` arm accepts an input exactly when the `-> ok` arm does not: every input gets one of the two verdicts |
| Harness.PassesOkWith | src/parser.rs:60-71 | passing the `-> ok, expected` arm implies passing the `-> ok` arm |
| Harness.TrimStart | src/parser.rs:40 | `trim_start` removes exactly the leading whitespace |
| Harness.TrimEnd | src/parser.rs:40 | `trim_end` removes exactly the trailing whitespace |
| Harness.Trim | src/parser.rs:40 | the trimmed input neither starts nor ends with whitespace |
| Harness.TrimEndExact | src/parser.rs:40 | trailing whitespace after text that does not end with whitespace is what `trim_end` removes |
| Harness.TrimExact | src/parser.rs:40 | whatever whitespace surrounds a text that has none at its ends, trimming gives back that text |
| Harness.TrimIdempotent | src/parser.rs:40 | trimming twice is trimming once |
| ParserTests.AtomEmptyTest | src/parser.rs:76 | `atom("") -> err` |
| ParserTests.AtomQuoteTest | src/parser.rs:77 | `atom("'") -> err` |
| ParserTests.AtomTwoQuotesTest | src/parser.rs:78 | `atom("''") -> err` |
| ParserTests.AtomQuoteQuoteLetterTest | src/parser.rs:79 | `atom("''a") -> err` |
| ParserTests.AtomDigitTest | src/parser.rs:80 | `atom("'1") -> err` |
| ParserTests.AtomTrailingDigitTest | src/parser.rs:81 | `atom("'ad1") -> err`: `atom` reads `'ad` and leaves `1` |
| ParserTests.AtomHyphenTrailingDigitTest | src/parser.rs:82 | `atom("'a-d1") -> err`: `atom` reads `'a-d` and leaves `1` |
| ParserTests.AtomLetterTest | src/parser.rs:84-85 | `atom("'a") -> ok, Atom("'a")` |
| ParserTests.AtomLettersTest | src/parser.rs:86 | `atom("'abcdef") -> ok, Atom("'abcdef")` |
| ParserTests.AtomHyphenatedTest | src/parser.rs:87 | `atom("'a-very-happy-atom") -> ok` with that atom |
| ParserTests.AtomHyphenTest | src/parser.rs:88 | `atom("'-") -> ok, Atom("'-")` |
| ParserTests.AtomHyphensAroundTest | src/parser.rs:89 | `atom("'-a-a-") -> ok, Atom("'-a-a-")` |
| ParserTests.AtomHyphensTest | src/parser.rs:90 | `atom("'-------") -> ok, Atom("'-------")` |
| ParserTests.AtomOk | src/parser.rs:60-71 | an atom test input that is whole atom text passes `-> ok` with that atom |
| ParserTests.AtomRejected | src/parser.rs:50-59 | an atom test input on which `atom` cannot start passes `-> err` |
| ParserTests.AtomLeftOver | src/parser.rs:50-59 | an atom test input that is atom text followed by a non-atom character is read up to that character, and passes `-> err` |
| ParserTests.RenderedOk | src/parser.rs:60-71 | an `expr` test input that is a written-out tree between whitespace passes `-> ok` with that tree |
| ParserTests.EmptyListTest | src/parser.rs:28-32 | `()`, with any whitespace inside, parses completely to the empty list |
| ParserTests.ExprTreeTest | src/parser.rs:107-117 | the first `test_expr` case passes `-> ok` with the expected nested tree |
| ParserTests.MissingCloseTest | src/parser.rs:95-98 | the first `test_expr_unmatched` case makes `expr` fail, so it passes `-> err` |
| ParserTests.ExtraCloseTest | src/parser.rs:99-102 | in the second `test_expr_unmatched` case `expr` succeeds but leaves `)`, so it passes `-> err` |
| ParserTests.PairTest | src/parser.rs:126-128 | `(Pair Atom Atom)` passes `-> ok`, as a list of three identifiers |
| ExprTests.CarCdrTest | src/parser.rs:119-124 | `(car (cdr (cons 'ratatouille (cons 'baguette 'olive-oil))))`, laid out over four lines, passes `-> ok`, as four nested lists |
| ExprTests.PairListsTest | src/parser.rs:130-136 | `(Pair (cdr (cons Atom 'olive)) (car (cons 'oil Atom)))`, laid out over five lines, passes `-> ok`; `Atom` is read as an identifier |
| ExprTests.SumTest | src/parser.rs:138-142 | `(+ (add1 (add1 zero)) (add1 zero))`, laid out over three lines, passes `-> ok`; `+` and `add1` are identifiers |
| ExprTests.DefineTest | src/parser.rs:144-147 | `(define one (add1 zero))`, laid out over two lines, passes `-> ok` |
| ExprTests.ClaimTest | src/parser.rs:149-152 | `(claim two Nat)`, laid out over two lines, passes `-> ok`, as a list of three identifiers |
| Ast.DerivedEqIsEquality | src/ast.rs:1-12 | the derived equality holds exactly when the two trees are the same value: same variant, then equal text or equal elements in order |
| Ast.AtomIsNotIdent | src/ast.rs:8-10 | an atom and an identifier with the same text are different, also under the derived equality |

## Left out

- Layout.ExprRoundTrip: the round trip is stated only for trees whose token texts are valid and whose adjacent atoms and identifiers are separated by whitespace. An `Atom` holding `x` is written out as `x`, which reads back as an identifier; two identifiers with no gap read back as one. Inputs where tokens touch, such as `(x'y)`, are covered by the converse in `Inverse`.
- Position tracking (`LocatedSpan`): offsets, lines and columns are never read by the rules, so the input is a plain string.
- nom's error values and error kinds are collapsed into one `Failure`. A `CompleteStr` input has no "incomplete" outcome.
- Borrowed slices and lifetimes: texts are string values. That a text is a slice of the input is stated as `t + rest == input`.
- The panic messages of `test_parser!`, and `Debug`/`Clone`: only the verdict is modelled.
- Characters outside ASCII are in no token class, as in the source. Unicode case rules play no part.
- The nom library itself is not part of this model. Which characters its `sp` skips is the assumption `Nom.IsSpace`.
- ParserTests.ExprTreeTest, ParserTests.MissingCloseTest, ParserTests.ExtraCloseTest, ParserTests.PairTest, ExprTests.CarCdrTest, ExprTests.PairListsTest, ExprTests.SumTest, ExprTests.DefineTest, ExprTests.ClaimTest: each is stated for any whitespace at the places where the literal has a newline and indentation, not for that literal alone. The literal is one instance.
