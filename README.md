# golog front end, modelled in Dafny

golog is the front end of a small Prolog-like language written in Go. This
project models its core and proves properties of the model:

- the token kinds, the `Token` value and its printed form, including the
  abbreviation helper `cut` (lexer/token.go);
- the scanning state of the lexer: its `start`/`pos` cursors, the
  `simpleTokens` table, the top-level state loop, `emit` and `run`
  (lexer/lexer.go);
- the syntax tree (parser/ast.go);
- the recursive-descent parser over a token stream with one-token lookahead
  (parser/parser.go).

Files:

| file | module | contents |
|---|---|---|
| `wrappers.dfy` | `Wrappers` | `Option` |
| `tokens.dfy` | `Tokens` | `TokenType`, `Token`, `Cut`, `TokenString` and their lemmas |
| `lexer.dfy` | `Lexing` | the `Lexer` class (`Emit`, `LexTopLevel`, `Run`) and the functions that specify it |
| `ast.dfy` | `Ast` | `Program`, `Clause`, `ClauseHead`, `Variable`, `Pred`, `Term` |
| `parser.dfy` | `Parser` | the parsing functions (`ParseProgramAt`, ...), the `TokenStream` class and the methods that follow the Go code (`ParseProgram`, ...) |
| `parser_lemmas.dfy` | `ParserLemmas` | the parser's round trip with `Spell`, and what it does on each kind of input |

How the model is built:

- **Tokens and strings.** Strings are sequences of code points. `ByteLen`
  gives the byte length Go's `len` reports for the UTF-8 encoding of a string.
  So `Cut` tests the byte length against 10, as `len(str) > 10` does. It keeps
  the first seven code points, as `%.7s` does.
- **The lexer.** The channel of tokens becomes the field `tokens`, and a send
  on the channel is an append. The input is a sequence of code points, so every
  rune read is one position wide.
- **Termination of `lexTopLevel`.** The loop makes no progress on a rune that
  is neither simple nor upper case, and never ends on such an input.
  `LexTopLevel` and `Run` therefore require `TopLevelHalts`. `TopLevelHaltsIff`
  characterises exactly the inputs that predicate excludes.
- **The token stream.** The `lexer.Lexer` interface is not part of this model.
  It becomes the `TokenStream` class: a token sequence and a cursor. `Peek`
  reads the token at the cursor, and `Next` reads it and advances. Past the
  last token the stream answers with an EOF token.
- **Parsing errors.** `synErrExpected` panics with a formatted message, and the
  panic ends the parse. Here every parsing step returns `Parsed<T>`: the value
  and the next position, or `Failure` carrying a `SyntaxError`. A
  `SyntaxError` records what was expected (a token kind, or the fixed
  "`,` or `(`" of the argument list), the rule named in the message, and the
  token found. `Message()` rebuilds the text of the panic from those three.
- **Functions and methods.** Each parsing function exists twice. The function
  over `(toks, i)` is the specification. The method on the `TokenStream`
  follows the Go code statement by statement, and its `ensures` ties its result
  to that function.
- **The parser's partner** is `Spell`, which writes a syntax tree back as
  lexemes: the token kinds, plus the text of atoms and variables. Soundness
  says a successful parse consumed exactly the spelling of its result.
  Completeness says the spelling of every program made of facts and rules
  parses back to that program. A clause with an absent body has no spelling
  that parses back (see "## Left out").

The model follows the code as written, also where it departs from what a
front end for this grammar would be expected to do:

- The first syntax error aborts the parse. No list of diagnostics is
  collected (`ProgramFailureIsClauseFailure`).
- An atom term is kept as a `ClauseHead`, not as a `Pred`.
- A clause whose head is followed by a token other than `.` or `:-` is
  accepted, with an absent body (`NilTerm`). That token is consumed.
- The argument-list error names "`,` or `(`", not `)`.
- `prettyType` names `TknColonDash` "`:=`".
- The lexer recognises only `.`, `(` and `)`, and ends at the first
  upper-case rune. Whitespace, atoms, variables and `:-` are not lexed.
- Token positions are never set. The model writes 0.

## Model

| member | source | states |
|---|---|---|
| Tokens.Code | lexer/token.go:13-24 | the integer value of a kind is at most 9 |
| Tokens.FromCode | lexer/token.go:13-24 | a kind exists exactly for the codes 0..9, and its code is the one asked for |
| Tokens.CodesConsecutive | lexer/token.go:13-24 | the codes run from TknError = 0 to TknEOF = 9, one per kind, and `FromCode` inverts `Code` |
| Tokens.Cut | lexer/token.go:38-43 | a text of at most 10 bytes is returned unchanged; a longer one becomes its first min(7, runes) code points followed by "...", at most 10 code points in all |
| Tokens.TokenString | lexer/token.go:26-36 | an error token prints as "ERROR: " and its whole text; EOF prints as "EOF"; an atom prints as its cut text in single quotes; any other kind prints as its cut text |
| Tokens.TokenStringIgnoresPos | lexer/token.go:26-36 | the printed form does not depend on the position, and an EOF token's does not depend on its text |
| Tokens.ShortTextShownVerbatim | lexer/token.go:32-42 | a text of at most 10 bytes is shown verbatim, quoted for an atom |
| Tokens.TokenStringBounded | lexer/token.go:26-43 | any token other than an error prints in at most 12 code points |
| Tokens.ErrorTextUnabbreviated | lexer/token.go:28-29 | an error token's printed form ends with its whole text, so distinct error texts print differently |
| Tokens.CutIdempotentIff | lexer/token.go:38-43 | cut(cut(s)) == cut(s) exactly when s has at most 10 bytes or at least 7 code points |
| Tokens.CutNotIdempotentExample | lexer/token.go:38-43 | three four-byte code points are lengthened by cut, and cutting twice differs from cutting once |
| Lexing.SimpleTokensTable | lexer/lexer.go:20-24 | the table maps exactly `.`, `(` and `)`, to TknDot, TknOpenParen and TknCloseParen |
| Lexing.IsUpper | lexer/lexer.go:34 | an upper-case rune is an ASCII rune that is not in the table, so the two cases of the switch never overlap |
| Lexing.TopLevelHaltsIff | lexer/lexer.go:26-39 | the top-level loop fails to end exactly when, after its leading simple runes, it meets a rune that is neither simple nor upper case |
| Lexing.TopLevelTokensShape | lexer/lexer.go:26-39 | the top-level state emits one one-rune token per leading simple rune, of the kind the table gives, and the joined texts are exactly that prefix of the input |
| Lexing.RunTokensEndWithOneEof | lexer/lexer.go:41-47 | run's output ends with exactly one EOF token with empty text and nothing after it; every earlier token is one punctuation rune; the joined texts are the consumed prefix |
| Lexing.Lexer.constructor | lexer/lexer.go:49-57 | the struct literal of `Lex`: both cursors at 0, nothing sent, and the cursor invariant holds |
| Lexing.Lexer.Emit | lexer/lexer.go:60-65 | `pos` grows by `extraLen`, the token sent has the text from the old `start` to the new `pos`, `start` moves to `pos`, and the invariant holds: the texts sent so far are the input up to `start`, without gaps or overlaps |
| Lexing.Lexer.LexTopLevel | lexer/lexer.go:26-39 | on an input where the loop halts, it consumes exactly the leading simple runes, emits `TopLevelTokens` of them, returns no next state and keeps `start == pos` |
| Lexing.Lexer.Run | lexer/lexer.go:41-47 | drives the states until none is returned, then emits EOF; the output is `RunTokens` of the input |
| Parser.PrettyType | parser/parser.go:88-106 | the name of a kind in messages reads back as that kind (`KindNamed`), so no two kinds share a name |
| Parser.SyntaxError.Message | parser/parser.go:82-86 | the panic text starts with "expected " and the name of what was expected, has the length of the five pieces, and ends with the printed form of the token found |
| Parser.NextTokenAt | parser/parser.go:74-80 | succeeds exactly when the token at the position has the expected kind, then returns it and advances by one; otherwise fails naming the expected kind, the rule and the token found |
| Parser.ParseVariableAt | parser/parser.go:69-72 | succeeds exactly on a variable token, giving the variable named by its text and consuming one token |
| Parser.ParseTermAt | parser/parser.go:61-67 | a successful term consumes at least one token and stays inside the sequence |
| Parser.ParseClauseHeadAt | parser/parser.go:32-40 | a head starts with an atom whose text is its name; its arguments are empty exactly when `(` does not follow, and then it consumes one token; a non-atom fails with "an atom" / "clause head" and the token found |
| Parser.ParseArgListAt | parser/parser.go:43-59 | a successful list starts at `(`, has at least one term and ends just after `)` |
| Parser.ParseArgsAt | parser/parser.go:46-57 | the loop of the argument list returns at least one term and stops just after `)` |
| Parser.ParseClauseAt | parser/parser.go:19-29 | a successful clause consumes at least two tokens |
| Parser.ParseProgramAt | parser/parser.go:11-16 | a successful program stops with EOF as the lookahead; the last clause may itself have consumed the final EOF (`EofConsumedExample`) |
| Parser.TokenStream.Peek | parser/parser.go:12 | the token at the cursor, without moving it; EOF once the tokens are used up |
| Parser.TokenStream.Next | parser/parser.go:74-75 | returns the token at the cursor, or EOF past the end, and advances the cursor by one |
| Parser.NextToken | parser/parser.go:74-80 | advances the cursor by one and computes `NextTokenAt` |
| Parser.ParseVariable | parser/parser.go:69-72 | computes `ParseVariableAt` and leaves the cursor after the variable |
| Parser.ParseTerm | parser/parser.go:61-67 | computes `ParseTermAt` and leaves the cursor after the term |
| Parser.ParseClauseHead | parser/parser.go:32-40 | computes `ParseClauseHeadAt` and leaves the cursor after the head |
| Parser.ParseArgList | parser/parser.go:43-59 | the loop appending terms computes `ParseArgListAt` and leaves the cursor after `)` |
| Parser.ParseClauseOrFact | parser/parser.go:19-29 | computes `ParseClauseAt` and leaves the cursor after the clause |
| Parser.ParseProgram | parser/parser.go:11-16 | the loop appending clauses while the lookahead is not EOF computes `ParseProgramAt` |
| Parser.Parse | parser/parser.go:6-8 | computes `ParseProgramAt` from the cursor |
| ParserLemmas.TermSound | parser/parser.go:61-67 | a parsed term is a variable or a clause head at every depth, and the tokens consumed are exactly its spelling |
| ParserLemmas.HeadSound | parser/parser.go:32-40 | a parsed head is built of parseable terms, and the tokens consumed are exactly its spelling |
| ParserLemmas.ArgListSound | parser/parser.go:43-59 | a parsed argument list is `(`, then its terms separated by `,`, then `)`, and nothing else is consumed |
| ParserLemmas.ArgsSound | parser/parser.go:46-57 | the argument loop consumes exactly the spelling of the terms it returns |
| ParserLemmas.TermComplete | parser/parser.go:61-67 | the spelling of a parseable term, not followed by `(`, parses back to that term and consumes exactly its spelling |
| ParserLemmas.HeadComplete | parser/parser.go:32-40 | the spelling of a parseable head, not followed by `(`, parses back to that head |
| ParserLemmas.ArgsComplete | parser/parser.go:46-57 | the spelling of a non-empty list of parseable terms parses back to those terms, in order |
| ParserLemmas.ClauseBodyCases | parser/parser.go:19-29 | after the head, `.` gives the body `true()`; `:-` gives the parsed term and then requires `.`, else fails naming "clause body"; any other token is consumed and leaves the body absent, without an error |
| ParserLemmas.ClauseSound | parser/parser.go:19-29 | a parsed clause is a fact or a rule whose tokens are exactly its spelling, or has an absent body after a head and one consumed token that is neither `.` nor `:-` |
| ParserLemmas.ClauseComplete | parser/parser.go:19-29 | the spelling of a fact or a rule parses back to that clause |
| ParserLemmas.ProgramIsClauseChain | parser/parser.go:11-16 | the program parse returns exactly the clauses parsed one after another, in source order, while the lookahead is not EOF, and stops at EOF |
| ParserLemmas.ProgramFailureIsClauseFailure | parser/parser.go:11-16 | the program parse fails with an error exactly when the clauses parse one after another up to a non-EOF lookahead where the next clause fails with that error |
| ParserLemmas.ProgramSound | parser/parser.go:11-16 | a parsed program with no absent bodies consists of facts and rules, and the tokens consumed are exactly its spelling |
| ParserLemmas.ProgramComplete | parser/parser.go:11-16 | the spelling of any sequence of facts and rules, followed by EOF, parses back to that program |
| ParserLemmas.TermCases | parser/parser.go:61-72 | a variable token gives the variable named by its text; anything else is parsed as a clause head, kept as a head or failing with its error |
| ParserLemmas.MessageTexts | parser/parser.go:82-86 | the message of each error the parser raises is "expected <kind> when parsing <rule>, got <token>", with the names each call site passes |
| ParserLemmas.ArgsBadSeparator | parser/parser.go:46-56 | in any round of the argument loop, a token other than `,` or `)` after the term is the "`,` or `(`" error naming that token |
| ParserLemmas.ArgsFailurePropagates | parser/parser.go:46-56 | a failing term fails the loop with its error, and after a term and `,` the loop fails exactly as its remaining rounds do |
| ParserLemmas.ArgListBadSeparator | parser/parser.go:43-57 | a token other than `,` or `)` after the first term fails the whole argument list with the "`,` or `(`" error, naming that token |
| ParserLemmas.LaterSeparatorExample | parser/parser.go:46-56 | `f(X, Y .` fails at the second separator, naming the `.` |
| ParserLemmas.PrettyTypeNames | parser/parser.go:88-106 | different kinds have different names in messages; TknError, TknNumber and TknEOF print as "???(n)" with their code |
| ParserLemmas.ParseOfLexerOutput | parser/parser.go:11-16 | the lexer's output is accepted only when it is EOF alone, giving the empty program; otherwise its first token fails as a clause head |
| ParserLemmas.FactExample | parser/parser.go:19-40 | `human(socrates).` parses to one fact whose argument is the head `socrates` and whose body is `true()` |
| ParserLemmas.RuleExample | parser/parser.go:19-29 | `mortal(X) :- human(X).` parses to one rule whose body is the head `human(X)` |
| ParserLemmas.UnterminatedArgsExample | parser/parser.go:43-57 | `foo(X` then EOF fails in the argument list, naming the EOF token |
| ParserLemmas.EofConsumedExample | parser/parser.go:11-29 | `foo` then EOF is accepted as one clause with absent body that consumes the EOF token; the loop then stops on the EOF the stream answers past its end |
| ParserLemmas.VariableHeadExample | parser/parser.go:32-34 | `Foo.` fails at once, expecting an atom for a clause head and naming the variable token |

## Left out

- Goroutine, channel and `close` in `Lex` and `run`: the channel is the sequence `tokens`, and a send is an append.
- `fmt.Printf` debug traces in `lexTopLevel` and `emit`, and `l.Highlight` in `synErrExpected`: output only.
- The `name` field is stored but not used; it serves error reports only.
- `width` field: no code in the core writes or reads it.
- `unicode.IsUpper` is modelled as ASCII `A`–`Z`. It is a foreign library call, and Unicode case tables are out of scope.
- `utf8.DecodeRuneInString`: the input is a sequence of code points, so `rlen` is 1 and positions count code points, not bytes.
- `Lexing.Lexer.LexTopLevel` and `Lexing.Lexer.Run`: the model covers only inputs on which the loop halts (`TopLevelHalts`). On any other input the Go loop runs forever.
- The lexer makes no progress after reading such a rune. That behaviour is only characterised, by `TopLevelHaltsIff`, since a method that never returns cannot be modelled here.
- Lexing of atoms, variables, numbers, `:-` and `,`: the code does not contain it.
- The `Pos` field: it is never set. Tokens carry 0, and `TokenString` ignores it.
- `Lexing.Lexer.Emit`: the `Token{t, text}` literal in lexer.go is positional and gives two values for the three fields of token.go's `Token`, which Go rejects; lexer.go also names the undefined type `tokenType` (lines 20 and 60). The model builds the three-field `Token` with position 0 and reads `tokenType` as `TokenType`.
- Kind values outside 0..9: `TokenType` is an `int` in Go, and `prettyType`'s `???(%d)` and `String`'s default case also handle other integers. No code of the core produces such a value, so the kinds are the closed datatype of the ten constants.
- `main.go` and `lexer/api.go` are not part of this model. They hold file I/O, printing and channel plumbing.
- The `lexer.Lexer` interface is not part of this model. The saturating EOF past the last token is a modelling choice here, not a behaviour taken from code. Accepting input such as `foo` then EOF depends on it: that clause consumes the EOF (`EofConsumedExample`), and the loop stops only because the stream answers EOF again. A stream that answered Go's zero `Token` (kind `TknError`) after its channel closed would instead fail that input as a clause head.
- `Tokens.CutIdempotentIff`: `cut` is not idempotent in general. A text of fewer than 7 code points but more than 10 bytes is lengthened by `cut`. The lemma states exactly where idempotence holds, and `CutNotIdempotentExample` gives an input where it fails.
- `ParserLemmas.ClauseComplete`, `ParserLemmas.ProgramComplete`: completeness covers facts and rules only. A clause with an absent body, which the parser builds from a head followed by a token other than `.` or `:-`, is spelled as `:-` followed by `.`, and that spelling does not parse.
- `ParserLemmas.ProgramSound`: a clause with an absent body puts a token the model does not spell back. Soundness is stated for programs without absent bodies; `ClauseSound` describes the absent-body case.
- `ParserLemmas.TermComplete`, `ParserLemmas.HeadComplete`: both require that `(` does not follow the spelling, so that an argument-less head is not read as the start of an argument list.
- The formatted message text is modelled by `SyntaxError.Message`. The `%v` of a token is `TokenString`.
