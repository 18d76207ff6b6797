# Search-query lexer

This project models the lexer of a small search-query language. An example
query is `cat format:junit status:pass created<=2009`. The lexer is the
`Scanner` in `search.go`. It reads runes one at a time and can push one rune
back. It sorts the next rune into a class:

- whitespace: space, tab, newline;
- operator: `>`, `<`, `=`, `:`;
- letter: `a`-`z`, `A`-`Z`;
- anything else.

A whitespace, operator or letter rune starts a token that takes the longest
run of its class. An identifier run continues with letters, digits and `_`.
Any other rune is one `ILLEGAL` token. At end of input the token is `EOF`.
Identifier runs are upper-cased and compared against the four field keywords
`IN`, `FORMAT`, `STATUS` and `CREATED`.

Modules:

- `RuneClasses` (`runes.dfy`): the four character classes and the rune-0
  end-of-input sentinel.
- `TokenTables` (`tokens.dfy`): the token kinds, the keyword and operator
  tables, and how a run is classified. This covers the operator switch as
  written and, separately, as evidently intended.
- `LexSpec` (`lexspec.dfy`): the lexer as functions of the input and a
  position. `Next` is one call of `Scan` and `Tokens` is the stream of
  successive calls. The module also holds the lemmas about maximal munch,
  lexeme fidelity, termination and the round trip.
- `Search` (`scanner.dfy`): the `Scanner` class. Its fields are the input
  text, the read position and the reader's pushback permission. `Read`
  and `Unread` state the new position and pushback permission directly.
  The three run scanners share one loop, `ScanRun`. `ScanRun`, the run
  scanners, `Scan` and the driver loop `ScanAll` are proved to leave the
  state `LexSpec` prescribes.

Behaviour of `search.go` that is easy to misread:

- An operator run is never resolved to an operator token. The case labels
  of the switch index the keyword table. That table has no operator
  entries, so every label is the empty string. A non-empty run therefore
  always comes out as `IDENT`. The operator table is never consulted.
- Even the intended switch has no `:` case. It gives `<=` and `=<` the
  same token (`EQLESS`), and `>=` and `=>` the same token (`EQMORE`).
- At end of input, `Scan` returns `EOF` on every call, not just once.
- A rune 0 in the input counts as end of input. At the start of a token it
  gives `EOF` and is consumed. Inside a run it ends the run and is dropped, and scanning continues
  after it.
- Nothing in the code assembles tokens into a query. `SearchString` and
  `Expression` are only declared.

## Model

| member | source | states |
|---|---|---|
| RuneClasses.IsWhitespace | search.go:198 | space, tab and newline are whitespace; carriage return and every other rune are not |
| RuneClasses.IsLetter | search.go:200 | only the ASCII ranges `a`-`z` and `A`-`Z` are letters |
| RuneClasses.IsDigit | search.go:202 | only `0`-`9` are digits |
| RuneClasses.IsOperation | search.go:204 | `>`, `<`, `=` and `:` are the operator runes |
| RuneClasses.ClassesAreAscii | search.go:198-204 | whitespace is exactly space, tab and newline; operators are exactly `>` `<` `=` `:`; digits are exactly `0`-`9` |
| RuneClasses.ClassesDisjoint | search.go:87-96 | the whitespace, operator and letter classes are pairwise disjoint, so at most one branch of `Scan` applies; rune 0 is in no class |
| TokenTables.Lookup | search.go:140-153 | indexing a Go map with a key it lacks yields the string zero value `""`; this is why every operator case label reads as `""` |
| TokenTables.Upper | search.go:139 | upper-casing keeps the length, leaves each rune the same up to case, and leaves no lower-case letter |
| TokenTables.UpperUnique | search.go:139 | those three properties determine the upper-cased text: any text that has them is `Upper`'s result |
| TokenTables.IdentKind | search.go:174-185 | an identifier run is a field keyword exactly when its upper-cased text is in the keyword table, and then it is the key whose spelling that is; otherwise it is `Ident` |
| TokenTables.KeywordIgnoresCase | search.go:174-182 | two runs that agree rune by rune up to case (the same rune, or the same ASCII letter in the other case) get the same kind |
| TokenTables.KeywordOnlyUpToCase | search.go:174-182 | conversely, two runs recognised as the same field keyword have the same length and agree rune by rune up to case |
| TokenTables.MixedCaseStatus | search.go:174-185 | `status` and `StAtUs` are the `STATUS` keyword, and `statuses` is an identifier |
| TokenTables.OperationKind | search.go:139-156 | as written, every non-empty operator run is `Ident`; only the empty string would match a case label (the first one, `EQUAL`) |
| TokenTables.IntendedOperation | search.go:139-156 | with the labels read from the operator table, the result is one of `EQUAL`, `MORE`, `LESS`, `EQLESS`, `EQMORE` or `Ident`; any non-`Ident` result comes from an operator-table spelling other than `:` |
| TokenTables.IntendedOperationTable | search.go:50-59 | the intended switch sends every spelling in the operator table to its own token, except that `<=` joins `=<` (`EQLESS`), `>=` joins `=>` (`EQMORE`), and `:` falls through to `Ident` |
| LexSpec.RunEnd | search.go:110-119 | the run that starts at `i` is the longest one: every rune in it belongs to the class, and the rune after it, if any, does not |
| LexSpec.RunEndUnique | search.go:110-119 | the end of a run is determined by where it stops: any bound that only covers class runes and is followed by a non-class rune (or the end of input) is the run's end |
| LexSpec.Munch | search.go:107-121 | a run scan takes its first rune unconditionally and then only class runes; the lexeme is exactly the input it covers and stops at a non-class rune; a rune 0 that ends the run is consumed as well, any other stopping rune is not |
| LexSpec.Next | search.go:83-104 | one `Scan` never moves backwards or past the end; it returns `EOF` exactly at the end of input or at a rune 0; every other token consumes at least one rune |
| LexSpec.NextLexeme | search.go:98-121 | an `EOF` token has an empty lexeme and consumes nothing at the end (one rune 0 otherwise); any other token's lexeme is non-empty and is the input it covers, followed at most by one dropped rune 0 |
| LexSpec.WhitespaceToken | search.go:106-121 | a whitespace rune starts a `WS` token whose lexeme is the input slice from that rune, made only of space, tab and newline, and followed by a non-whitespace rune or the end |
| LexSpec.OperationToken | search.go:124-157 | an operator rune starts a token whose lexeme is the input slice from that rune, made only of `<` `>` `=` `:` and followed by a non-operator rune or the end; that token is `IDENT` |
| LexSpec.IdentToken | search.go:159-185 | a letter starts a token whose lexeme is the input slice from that letter, in its original case: a letter followed by letters, digits and `_`, and then a rune outside that class or the end; it is a keyword exactly when its upper-cased text is one |
| LexSpec.IllegalToken | search.go:98-103 | `ILLEGAL` comes exactly from a rune that is in no class and is not rune 0 (a digit, `_`, `#`, `-`, a non-ASCII rune, and so on); its lexeme is that rune and exactly one rune is consumed |
| LexSpec.LessEqLexesAsIdent | search.go:139-156 | as written, the input `<=` gives the single token (`IDENT`, `<=`) |
| LexSpec.Tokens | search.go:212-215 | successive `Scan` calls reach `EOF` within the input length plus one calls; the last token is `EOF` and no earlier one is |
| LexSpec.ScanExtends | search.go:212-215 | one more `Scan` extends the tokens returned so far by one; at `EOF` they are the whole stream |
| LexSpec.RoundTrip | search.go:83-185 | on input without rune 0, the lexemes of the stream, concatenated, are exactly the input |
| Search.Scanner.constructor | search.go:79-81 | a new scanner reads the given text from its start, with no pushback pending |
| Search.Scanner.Read | search.go:188-194 | returns the next rune and advances, or returns rune 0 and stays put at the end of input; a pushback is allowed exactly after a rune was returned |
| Search.Scanner.Unread | search.go:196 | steps back one rune when the last operation was a successful read, and does nothing otherwise |
| Search.Scanner.ScanRun | search.go:107-119 | the loop shared by the three run scanners leaves the reader where `Munch` says, with the lexeme `Munch` gives; a pushback stays possible exactly when a rune 0 was dropped |
| Search.Scanner.ScanWhitespace | search.go:106-122 | returns `WS` with the maximal whitespace run, as `LexWhitespace` prescribes |
| Search.Scanner.ScanOperation | search.go:124-157 | returns the maximal operator run, classified as written, as `LexOperation` prescribes |
| Search.Scanner.ScanIdent | search.go:159-186 | returns the maximal identifier run, with its keyword classification, as `LexIdent` prescribes |
| Search.Scanner.Scan | search.go:83-104 | returns the token and lexeme `Next` prescribes and moves the reader to `Next`'s position, so every `Unread` it makes actually restores the position; afterwards a pushback is possible exactly after an `ILLEGAL` rune or a dropped rune 0 |
| Search.ScanAll | search.go:209-215 | the driver loop starts from the zero token kind (`IN`), calls `Scan` until `EOF`, and collects exactly `Tokens` of the input; the reader ends where the `EOF` token left it, and accepts a pushback exactly when that last `Scan` consumed a rune 0 (`LastStart` is where it began) |

## Findings

| source | as written | input that shows it | evidently intended | confidence | as-written member | corrected member |
|---|---|---|---|---|---|---|
| search.go:139-154 | each case label reads `TokenKeyword[...]`, which holds no operator key, so every label is `""` and no operator run ever matches | `<=` gives (`IDENT`, `<=`) | labels read `TokenOperation[...]`, so `<=` gives `EQLESS` and `>=` gives `EQMORE` | not executed; high | LexSpec.LessEqLexesAsIdent | TokenTables.IntendedOperationTable |

The `Scanner` keeps the classification as written (`TokenTables.OperationKind`),
because that is what the code does. The intended classification,
`TokenTables.IntendedOperation`, is modelled and proved beside it.

## Left out

- UTF-8 decoding by the buffered reader is not modelled. Invalid bytes read as U+FFFD in the code. Here the input is already a sequence of Unicode scalar values, and a read error counts as end of input.
- Go's `strings.ToUpper` also maps non-ASCII letters. `TokenTables.Upper` maps only `a`-`z`. Every lexeme that reaches it is ASCII, so nothing observable changes.
- `bytes.Buffer` becomes a sequence that is appended to. Allocation and growth are not modelled.
- `main` prints each lexeme. `Search.ScanAll` models its loop without the output.
- Line and position tracking does not exist in the code. The unused local `count` in `Scan` is ignored.
- The query assembler (free-text keywords plus field expressions) is not modelled. No code builds `SearchString` or `Expression`; they are declared as datatypes only.
- `auth/mail.go` (SMTP and template rendering) and `auth/db.go` (ORM table mapping) are not part of this model. They are network and database plumbing with no link to the lexer.
