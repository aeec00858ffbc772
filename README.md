# atom_script core in Dafny

A model of the sequential core of the atom_script interpreter and of the event
bus of its web frontend. The interpreter is written in Go, the event bus in
TypeScript. The model covers:

- **Keyword table** (`Token`): the token kinds with the string values of their
  Go constants, the reserved-word map and `LookupIdent`.
- **Scanner** (`Lexer`): the byte cursor `Lexer` with `input`, `position`,
  `readPosition` and `ch`, and its methods `readChar`, `peekChar`,
  `skipWhitespace`, `readIdentifier`, `readNumber` and `NextToken`. Each method
  is proved against pure functions. `Scan` is one call of `NextToken` from a
  cursor position. `Tokens` is the whole stream the scanner yields until its
  cursor has passed the end.
- **Syntax tree** (`Ast`): `Program`, `AtomStatement` and `Identifier` with
  their `TokenLiteral` accessors. The nodes the parser and the evaluator name
  but the tree module does not declare are added with only the fields that are
  read. A rendering is given only for the program shape the tree module's test
  checks.
- **Parser** (`Parser`): the two-token lookahead parser over a `Lexer`, with
  its growing diagnostics list.
  - `ParserState` and its functions say what each step does to the lookahead
    pair, to the tokens still to come and to the diagnostics.
  - The class `Parser` is the Go parser. Each of its methods is proved to do
    what the matching function says.
  - `Run` records whether a parse halts. The produce-statement loop never ends
    when no semicolon follows.
- **Parser's test** (`ParserTest`): the parser's test, on the text it holds and
  on the text it has commented out, each taken from source text through lexing
  and parsing to the program and its diagnostics.
- **Runtime values** (`Object`): the five object kinds with `Type` and `Inspect`,
  integer rendering included.
- **Evaluator** (`Evaluator`): `Eval` over programs, expression statements,
  integer and boolean literals and the `!` and `-` prefix operators, with the
  shared `TRUE`, `FALSE` and `NULL` values. `evalStatements` is a method with its
  loop.
- **Event bus** (`Events`): the table from event name to callback list, updated
  in place by `subscribe`, `unsubscribe` and `unsubscribeAll`, and the shared
  instance of `getInstance`.

Machine types are explicit. A Go string is a sequence of bytes (`GoTypes.Byte`),
and `int64` negation wraps at the minimum (`GoTypes.Neg`). Go's `nil` is
`Option.None`. A nil `*AtomStatement` held in a statement interface is
`AtomStmt(None)`, which is a statement, not nil.

## Model

| member | source | states |
|---|---|---|
| GoTypes.Neg | evaluator/evaluator.go:81-83 | int64 negation: `-v`, except that the minimum value is its own negation |
| GoTypes.NegInvolutive | evaluator/evaluator.go:76-84 | negating twice gives back every int64, the minimum included |
| Token.TokenType.Name | token/token.go:10-47 | every kind's constant string is non-empty; `NameRoundTrip` and `NameInjective` state that it names that kind alone |
| Token.Spelling | token/token.go:51-60 | each keyword kind has a spelling which the keyword table maps to that kind |
| Token.LookupIdent | token/token.go:65-70 | the result is a keyword kind exactly when the spelling is in the table, and that keyword is spelled as the input; otherwise IDENT |
| Token.NameRoundTrip | token/token.go:10-47 | every kind's constant string reads back as that kind |
| Token.NameInjective | token/token.go:10-47 | two kinds have the same string exactly when they are the same kind |
| Token.OperatorNames | token/token.go:19-36 | every operator and delimiter kind's string is its own spelling (`=`, `==`, `!=`, …) |
| Token.LookupKeywords | token/token.go:51-60 | each of the eight reserved words maps to its own keyword kind |
| Token.LookupCaseSensitive | token/token.go:65-70 | case variants such as `Atom` and `ATOM` are identifiers |
| Token.LookupIdentRange | token/token.go:65-70 | the lookup never gives ILLEGAL, EOF, INT or an operator or delimiter kind |
| Token.KeywordsInjective | token/token.go:51-60 | distinct reserved spellings have distinct kinds |
| Lexer.IsLetter | lexer/lexer.go:135-137 | no contract of its own; `Lexer.CharClasses` states the class |
| Lexer.IsDigit | lexer/lexer.go:150-152 | no contract of its own; `Lexer.CharClasses` states the class |
| Lexer.CharClasses | lexer/lexer.go:52-152 | letters are ASCII bytes, digits exactly `0`–`9`; letters, digits, whitespace, the one-byte token bytes and NUL are pairwise apart, so the order of the switch's cases decides nothing |
| Lexer.ByteString | lexer/lexer.go:128-133 | `string(ch)` of a byte is that byte below 0x80, otherwise two bytes of UTF-8 |
| Lexer.NewToken | lexer/lexer.go:128-133 | the token has the given kind and `string(ch)` as literal: that byte alone below 0x80, two bytes from 0x80 on |
| Lexer.RunEnd | lexer/lexer.go:140-148 | the end of the maximal run of bytes with a property: all bytes before it have it, the byte at it does not |
| Lexer.OneByteKind | lexer/lexer.go:52-100 | each one-byte case of the switch gives an operator or delimiter kind whose string is that byte |
| Lexer.ScanAt | lexer/lexer.go:52-117 | a token from the whitespace-free cursor: the cursor always advances, stays in the input except after EOF, and keywords carry their spelling |
| Lexer.ScanAtCases | lexer/lexer.go:52-117 | the token and new cursor for NUL, `==`, `!=`, the one-byte cases and ILLEGAL, in switch order |
| Lexer.OperatorAt | lexer/lexer.go:52-100 | an operator or delimiter token takes one or two bytes, stays in the input, is spelled and is never EOF |
| Lexer.WordAt | lexer/lexer.go:102-105 | an identifier or keyword takes at least one byte, stays in the input, is spelled and is never EOF |
| Lexer.Scan | lexer/lexer.go:47-118 | one `NextToken` call strictly advances the cursor, by at most one past the end |
| Lexer.Tokens | lexer/lexer.go:47-118 | the stream from a cursor inside the input ends with EOF, and every keyword token in it is spelled as its keyword |
| Lexer.ScanPastEnd | lexer/lexer.go:26-27 | once the cursor is at or past the end, every call gives EOF with an empty literal |
| Lexer.TokensStep | lexer/lexer.go:47-118 | one more call takes the next token off the stream; an exhausted stream yields EOF and stays exhausted |
| Lexer.TokensUnfold | lexer/lexer.go:47-118 | the stream from a cursor is the token scanned there followed by the stream from the cursor after it |
| Lexer.ScanEofIff | lexer/lexer.go:78-80 | on NUL-free input, EOF comes exactly when only whitespace is left |
| Lexer.ScanSkipsWhitespace | lexer/lexer.go:121-125 | space, tab, LF and CR are skipped before a token and never occur in its literal |
| Lexer.ScanIdentifier | lexer/lexer.go:102-105 | an identifier is the maximal non-empty letter run at the cursor, with kind `LookupIdent` of its literal |
| Lexer.ScanNumber | lexer/lexer.go:106-109 | an INT token is the maximal non-empty digit run at the cursor |
| Lexer.ScanTwoByteOperators | lexer/lexer.go:53-62 | `=` and `!` give `==` and `!=` (two bytes) before `=`, else `=` and `!` (one byte) |
| Lexer.ScanIllegal | lexer/lexer.go:110-116 | a byte that starts no token is ILLEGAL with that byte's string as literal, and the cursor moves one byte |
| Lexer.ScanSpellsSlice | lexer/lexer.go:47-118 | on ASCII input without NUL, a token that is not EOF spells exactly the bytes it was scanned from |
| Lexer.TokensSpellInput | lexer/lexer.go:47-118 | on ASCII input without NUL, the literals of the whole stream put together are the input with whitespace removed |
| Lexer.TokensEofOnlyLast | lexer/lexer.go:78-80 | on NUL-free input, EOF is the last token of the stream and no earlier one |
| Lexer.TokensExample | lexer/lexer.go:47-118 | `atom five = 5;` gives ATOM, IDENT, ASSIGN, INT, SEMICOLON, EOF |
| Lexer.Lexer.constructor | lexer/lexer.go:15-22 | `New` sets the cursor on the first byte: `position` 0, `readPosition` 1, `ch` the byte there or NUL |
| Lexer.Lexer.ReadChar | lexer/lexer.go:25-35 | `position` takes `readPosition`, `readPosition` moves one on, `ch` is the byte there or NUL past the end |
| Lexer.Lexer.PeekChar | lexer/lexer.go:38-44 | the byte at `readPosition`, or NUL past the end |
| Lexer.Lexer.SkipWhitespace | lexer/lexer.go:121-125 | the cursor moves to the end of the whitespace run |
| Lexer.Lexer.ReadIdentifier | lexer/lexer.go:140-148 | the cursor moves to the end of the letter run, and the result is the bytes passed over |
| Lexer.Lexer.ReadNumber | lexer/lexer.go:154-160 | the cursor moves to the end of the digit run, and the result is the bytes passed over |
| Lexer.Lexer.NextToken | lexer/lexer.go:47-118 | the token and the new cursor position are those of `Scan` from the old one |
| Ast.Identifier.TokenLiteral | ast/ast.go:57-59 | no contract of its own; `Ast.TokenLiterals` states it |
| Ast.AtomStatement.TokenLiteral | ast/ast.go:46-48 | no contract of its own; `Ast.TokenLiterals` states it |
| Ast.Statement.TokenLiteral | ast/ast.go:46-48 | no contract of its own; `Ast.TokenLiterals` states it |
| Ast.Program.TokenLiteral | ast/ast.go:30-36 | no contract of its own; `Ast.ProgramTokenLiteral` and `Ast.TokenLiterals` state it |
| Ast.TokenLiterals | ast/ast.go:30-59 | an identifier's and an atom statement's literal is its token's, and a program led by an atom statement has that literal; a nil atom statement and a produce statement have none |
| Ast.Render | ast/ast_test.go:9-36 | empty exactly for a program with no statements, and otherwise ends in `;` |
| Ast.ProgramTokenLiteral | ast/ast.go:30-36 | an empty program's literal is `""`; otherwise it is the first statement's, whatever follows |
| Ast.TestProgramRenders | ast/ast_test.go:9-36 | the hand-built program renders as `atom myVar = anotherVar;` |
| Parser.ExpectedMessage | parser/parser.go:37-38 | no contract of its own: the `Sprintf` text, with each kind written as its constant string; `ParserTest.CommittedErrorsText` spells three of them out |
| Parser.ParserState.PeekError | parser/parser.go:36-40 | the tokens stay and exactly `ExpectedMessage` of the expected and the peeked kind is appended to the diagnostics |
| Parser.ParserState.CurTokenIs | parser/parser.go:117-119 | no contract of its own: whether the current token has the kind |
| Parser.ParserState.PeekTokenIs | parser/parser.go:121-123 | no contract of its own: whether the peeked token has the kind |
| Parser.ParserState.NextToken | parser/parser.go:42-45 | the peeked token becomes current and the stream moves by one; diagnostics are kept; the step keeps the stream's invariant and never raises the measure |
| Parser.ParserState.ExpectPeek | parser/parser.go:126-134 | true exactly when the peeked kind is the expected one; then one step, otherwise no step and exactly one "expected next token to be …, got … instead" appended |
| Parser.ParserState.ParseAtomStatement | parser/parser.go:76-100 | a statement exactly when `atom` is followed by an identifier and `=`, with the `atom` token and the identifier's literal as name; otherwise nil and exactly one more diagnostic; earlier diagnostics are kept |
| Parser.ParserState.SkipToSemicolon | parser/parser.go:110-112 | either the Go loop never ends, or it stops on a semicolon with the diagnostics unchanged |
| Parser.ParserState.ParseProduceStatement | parser/parser.go:102-115 | a produce statement holding the `produce` token, ending on a semicolon, with no new diagnostic |
| Parser.ParserState.ParseStatement | parser/parser.go:65-74 | a start other than ATOM or PRODUCE gives nil and changes nothing; ATOM always gives an atom statement slot, and a non-nil one has literal `atom`; PRODUCE diverges exactly when `ParseProduceStatement` does, and otherwise gives that produce statement and its end state |
| Parser.ParserState.ParseLoop | parser/parser.go:52-60 | a halting loop keeps the statements already parsed and the diagnostics already recorded, and ends on EOF |
| Parser.ParserState.ParseProgram | parser/parser.go:47-63 | a halting parse ends on EOF with the earlier diagnostics kept |
| Parser.Start | parser/parser.go:19-30 | after `New` the lookahead pair is the first two tokens, and there are no diagnostics |
| Parser.TwoStepsStart | parser/parser.go:19-30 | two `nextToken` steps from the zero token reach the state `Start` describes |
| Parser.SkipToSemicolonStopsAtFirst | parser/parser.go:110-112 | the loop stops at the first semicolon still to come, and runs forever exactly when there is none |
| Parser.SkipPastOne | parser/parser.go:110-112 | one round of the skip loop keeps the stream's invariant, lowers the measure and drops exactly one token from what is still to come |
| Parser.ProduceStopsAtFirstSemicolon | parser/parser.go:102-115 | a produce statement ends at the first semicolon after `produce`, and never ends when there is none, `produce` just before EOF included |
| Parser.ProduceAtEnd | parser/parser.go:102-112 | `produce` with only EOF after it: no semicolon is to come and the statement never ends |
| Parser.ProduceLastDiverges | parser/parser.go:52-74 | a `produce` last in the input makes the statement and so the whole program loop diverge |
| Parser.ProduceAloneDiverges | parser/parser.go:47-112 | the program `produce` never finishes parsing |
| Parser.LoopProduce | parser/parser.go:52-74 | a `produce` with a semicolon after it is appended to the program, and the loop goes on after the first such semicolon |
| Parser.LoopProduceDiverges | parser/parser.go:52-74 | a `produce` with no semicolon after it makes the statement and the program loop diverge |
| Parser.LoopStep | parser/parser.go:52-60 | one round of the program loop: the parsed statement is appended when it is not nil, and the loop goes on from the token after it |
| Parser.AtomStatementParses | parser/parser.go:65-100 | `atom`, an identifier and `=` give an atom statement holding the `atom` token and the identifier, ending on the token after `=` |
| Parser.AtomNoIdentParses | parser/parser.go:76-83 | `atom` without an identifier gives a nil atom statement and one diagnostic, the cursor staying on `atom` |
| Parser.AtomNoAssignParses | parser/parser.go:76-92 | `atom` and an identifier without `=` give a nil atom statement and one diagnostic, the cursor on the identifier |
| Parser.LoopSkipsOtherStarts | parser/parser.go:52-73 | a token that starts no statement adds no statement and no diagnostic |
| Parser.LoopAtom | parser/parser.go:76-100 | a well-formed atom statement adds one statement named by its identifier and takes four tokens |
| Parser.LoopAtomNoIdent | parser/parser.go:81-83 | `atom` without an identifier adds a nil statement slot and one diagnostic |
| Parser.LoopAtomNoAssign | parser/parser.go:90-92 | `atom` and an identifier without `=` add a nil statement slot and one diagnostic |
| Parser.Parser.constructor | parser/parser.go:19-30 | the new parser's state is `Start` of the lexer's stream |
| Parser.Parser.Errors | parser/parser.go:32-34 | the diagnostics recorded so far |
| Parser.Parser.PeekError | parser/parser.go:36-40 | one diagnostic naming the expected and the peeked kind is appended; the tokens stay |
| Parser.Parser.NextToken | parser/parser.go:42-45 | the peeked token becomes current and exactly one token is taken from the lexer |
| Parser.Parser.CurTokenIs | parser/parser.go:117-119 | whether the current token has the kind |
| Parser.Parser.PeekTokenIs | parser/parser.go:121-123 | whether the peeked token has the kind |
| Parser.Parser.ExpectPeek | parser/parser.go:126-134 | does what `ParserState.ExpectPeek` says |
| Parser.Parser.ParseAtomStatement | parser/parser.go:76-100 | does what `ParserState.ParseAtomStatement` says |
| Parser.Parser.ParseProduceStatement | parser/parser.go:102-115 | does what `ParserState.ParseProduceStatement` says, where it halts |
| Parser.Parser.ParseStatement | parser/parser.go:65-74 | does what `ParserState.ParseStatement` says, where it halts |
| Parser.Parser.ParseProgram | parser/parser.go:47-63 | does what `ParserState.ParseProgram` says, where it halts |
| Parser.Parse | parser/parser_test.go:24-29 | lexer, parser, `ParseProgram` and `Errors` give the program and the diagnostics of the parse of the text's stream |
| ParserTest.CommittedLexes | parser/parser_test.go:17-22 | the text the test holds lexes into its twelve tokens |
| ParserTest.IntendedLexes | parser/parser_test.go:10-15 | the commented-out text lexes into its sixteen tokens |
| ParserTest.CommittedErrorsText | parser/parser.go:36-40 | the three diagnostics on the held text, spelled out |
| ParserTest.CommittedParses | parser/parser_test.go:17-28 | the held text's tokens parse into three nil statement slots and three diagnostics |
| ParserTest.IntendedParses | parser/parser_test.go:10-15 | the commented-out text's tokens parse into atom statements `a`, `b`, `foobar` with no diagnostics |
| ParserTest.CommittedTextParses | parser/parser_test.go:17-29 | from source text: three nil statement slots and three diagnostics |
| ParserTest.IntendedTextParses | parser/parser_test.go:10-15 | from source text: statements `a`, `b`, `foobar` and no diagnostics |
| ParserTest.TestAtomStatement | parser/parser_test.go:9-55 | the test on the held text gets three nil slots and three diagnostics, so its error check fails |
| ParserTest.TestAtomStatementIntended | parser/parser_test.go:35-80 | on the commented-out text: three statements, literal `atom`, names and name literals `a`, `b`, `foobar`, no diagnostics |
| Object.Object.Type | object/object.go:25-53 | every value's tag is one of the five constants; `Object.TypeTellsKind` states that the tag tells the kind |
| Object.Object.Inspect | object/object.go:26-54 | every value's rendering is non-empty; `Object.InspectConstants`, `Object.DecimalRoundTrip` and `Object.ProduceValueTransparent` state it kind by kind |
| Object.Decimal | object/object.go:26 | a non-empty rendering that starts with `-` exactly for negatives; `Object.DecimalRoundTrip` states it reads back |
| Object.NatDecimal | object/object.go:26 | the digits of a natural number, with no leading zero |
| Object.NatDecimalValue | object/object.go:26 | the digits read back as the number |
| Object.DecimalRoundTrip | object/object.go:21-26 | `Inspect` of an integer has a `-` exactly for negatives, then digits with no leading zero, and reads back as the integer |
| Object.DecimalMinInt64 | object/object.go:26 | the smallest int64 renders as `-9223372036854775808`, not wrapped |
| Object.TypeTellsKind | object/object.go:7-13 | two values have the same type tag exactly when they are the same kind: the five tags are distinct |
| Object.InspectConstants | object/object.go:28-54 | booleans render `true`/`false`, null renders `null`, an error renders `ERROR: ` and its message |
| Object.ProduceValueTransparent | object/object.go:42-47 | a produced value renders as the value it wraps but is tagged PRODUCE_VALUE_OBJ |
| Evaluator.NativeBool | evaluator/evaluator.go:27-32 | a boolean evaluates to the shared TRUE or FALSE holding it |
| Evaluator.EvalBang | evaluator/evaluator.go:63-74 | `!` gives TRUE exactly for FALSE and NULL, FALSE for everything else, integers and nil included |
| Evaluator.EvalMinus | evaluator/evaluator.go:76-84 | `-` negates an integer with int64 wrap-around, and gives NULL for any other value |
| Evaluator.EvalPrefix | evaluator/evaluator.go:52-61 | the result is an integer or a shared value, and NULL for every operator but `!` and `-` |
| Evaluator.EvalExpression | evaluator/evaluator.go:15-40 | evaluation gives an integer or a shared value, and nil exactly for an identifier |
| Evaluator.EvalStatement | evaluator/evaluator.go:15-40 | a statement evaluates to an integer, a shared value or nil |
| Evaluator.RunStatements | evaluator/evaluator.go:42-50 | no statements leave the result as it was, and otherwise the result is nil or a value evaluation makes; `Evaluator.RunStatementsIsLast` states it is the last statement's |
| Evaluator.Eval | evaluator/evaluator.go:15-40 | a value is an integer or a shared value; an expression gives nil exactly when it is an identifier; an empty program gives nil |
| Evaluator.EvalStatements | evaluator/evaluator.go:42-50 | the loop gives nil for no statements and otherwise the last statement's value |
| Evaluator.RunStatementsIsLast | evaluator/evaluator.go:42-50 | no statement stops the others and no earlier result survives: the value is the last one's |
| Evaluator.EvalProgram | evaluator/evaluator.go:17-18 | a program evaluates to nil when empty, otherwise to its last statement's value |
| Evaluator.EvalLiterals | evaluator/evaluator.go:24-32 | an integer literal evaluates to that integer, a boolean to the shared TRUE or FALSE |
| Evaluator.EvalExpressionStatement | evaluator/evaluator.go:20-21 | an expression statement has its expression's value |
| Evaluator.EvalOtherStatements | evaluator/evaluator.go:39 | atom statements, nil ones too, and produce statements evaluate to nil |
| Evaluator.DoubleBang | evaluator/evaluator.go:63-74 | `!!x` is TRUE exactly when x is neither FALSE nor NULL |
| Evaluator.BangTable | evaluator/evaluator.go:34-36 | `!` on an evaluated operand: the truth table for TRUE, FALSE, NULL, integers and nil |
| Evaluator.MinusOnEval | evaluator/evaluator.go:34-36 | `-` on an evaluated operand gives the wrapped negation of an integer, otherwise NULL |
| Evaluator.MinusTwice | evaluator/evaluator.go:76-84 | `-` twice gives the integer back; `-` leaves the smallest int64 as it is |
| Evaluator.MinusNonInteger | evaluator/evaluator.go:77-79 | `-` on a boolean or on NULL gives NULL, not an error |
| Evaluator.EvalNeverErrs | evaluator/evaluator.go:15-84 | evaluation never makes an error or a produced value |
| Evaluator.OtherPrefixIsNull | evaluator/evaluator.go:58-59 | any prefix operator but `!` and `-` gives NULL |
| Events.RemoveAll | frontend/lib/event-bus.ts:32 | the `filter` never lengthens the list and leaves no entry identical to the callback |
| Events.RemoveAllCounts | frontend/lib/event-bus.ts:32 | every occurrence of the callback goes, and every other callback stays as often as it was listed |
| Events.Subscribed | frontend/lib/event-bus.ts:14-20 | the event's list, made if absent, gets the callback at its end; other events are unchanged |
| Events.Unsubscribed | frontend/lib/event-bus.ts:30-34 | a known event's list is filtered; no entry is made; other events are unchanged |
| Events.Cleared | frontend/lib/event-bus.ts:36-40 | a known event's list becomes empty; no entry is made; other events are unchanged |
| Events.EventBus.constructor | frontend/lib/event-bus.ts:4 | a new bus has no listeners |
| Events.EventBus.Subscribe | frontend/lib/event-bus.ts:14-20 | the table becomes `Subscribed` of the old one |
| Events.EventBus.Publish | frontend/lib/event-bus.ts:22-28 | the callbacks invoked are the event's list in order, none for an unknown event |
| Events.EventBus.Unsubscribe | frontend/lib/event-bus.ts:30-34 | the table becomes `Unsubscribed` of the old one |
| Events.EventBus.UnsubscribeAll | frontend/lib/event-bus.ts:36-40 | the table becomes `Cleared` of the old one |
| Events.Registry.constructor | frontend/lib/event-bus.ts:2 | no instance exists yet |
| Events.Registry.GetInstance | frontend/lib/event-bus.ts:6-12 | the stored instance if there is one, else a new empty bus, which is stored |
| Events.GetInstanceTwice | frontend/lib/event-bus.ts:6-12 | two calls return the same instance |
| Events.RemoveAllAppend | frontend/lib/event-bus.ts:32 | filtering keeps the order of what stays |
| Events.RemoveAllAbsent | frontend/lib/event-bus.ts:32 | a list without the callback is left as it is |
| Events.UnsubscribeIdempotent | frontend/lib/event-bus.ts:30-34 | unsubscribing twice is unsubscribing once |
| Events.SubscribeThenUnsubscribe | frontend/lib/event-bus.ts:14-34 | unsubscribing after subscribing leaves the old list filtered and every other event unchanged |
| Events.SubscribeKeepsDuplicates | frontend/lib/event-bus.ts:14-20 | subscribing one callback twice lists it twice |
| Events.UnknownEventStaysUnknown | frontend/lib/event-bus.ts:22-40 | on an unknown event, unsubscribe and unsubscribeAll make no entry, and publish invokes nothing |

## Left out

- The REPL, the file runner and the HTTP API. They are input/output drivers around the lexer, parser and evaluator, and call environment code that is not part of this model.
- The React pages, the network services and the syntax highlighter of the frontend. They are user interface code and calls into foreign libraries.
- Expression parsing, environments, calls, infix operators and conditionals. The parser skips values, and the rest is not implemented in the modelled code.
- Events.EventBus.Publish: what the callbacks do when invoked, and the arguments passed to them, are not modelled. Callbacks are opaque identifiers compared by identity, and only the order of invocation is stated.
- Events: JavaScript prototype keys of the listener object (such as `constructor`) are not modelled; the table holds only the keys that were set.
- Events.Registry: the static field is an object of its own, which callers pass around.
- Evaluator: pointer identity of `TRUE`, `FALSE` and `NULL` is equality of values. Evaluation makes no other boolean or null value, so the comparisons in `!` agree.
- Evaluator.Eval: requires that the operand of every `-` evaluates to a value. On nil (an identifier operand) the Go code calls a method on nil and panics, and that panic is not modelled.
- Ast: the right operand of a prefix expression and the expression of an expression statement are always present. In Go they are interfaces that may be nil: `Eval` of nil is nil, `!` of it FALSE, and `-` of it panics. Identifiers evaluate to nil as well, and the parser builds neither node, so nothing observable is lost.
- Ast.Statement.TokenLiteral, Ast.Program.TokenLiteral: require a non-nil atom statement, and a program whose first slot holds one. On the nil `*AtomStatement` slot the parser makes for a malformed `atom` statement, Go's `TokenLiteral` dereferences nil and panics; that panic is not modelled.
- Object: a `ProduceValue` always wraps a value. The Go field may be nil, on which `Inspect` panics.
- Parser.Parser.ParseProgram, Parser.Parser.ParseStatement, Parser.Parser.ParseProduceStatement and Parser.Parse: require that the parse halts. Where a `produce` statement has no semicolon after it the Go loop never returns; the functions say so with `Diverges` and the methods are not callable there.
- Parser.Parser.constructor: `Token(Illegal, "")` stands for Go's zero token, whose kind is `""`, a string no constant has. It is overwritten before use, so its kind is never observed.
- Names only: the keyword kind spelled `PROODUCE` in the Go constants is `Produce`. The parser's `ProduceStatementStruct` is `ProduceStatement`, `object.Interger` is `Object.Integer`, and `praseProduceStatement` is `ParseProduceStatement`.
- Ast: the tree module declares no rendering. `Render` covers atom statements whose value is absent or an identifier, the only shape its test checks.
- Lexer: a NUL byte inside the input yields EOF mid-stream and scanning goes on after it, as in the Go code. The properties about the spelling of the whole stream assume NUL-free ASCII input.

## Findings

| source | as written | input that shows it | evidently intended | confidence | as-written member | corrected member |
|---|---|---|---|---|---|---|
| parser/parser_test.go:17-22 | the test parses a text whose statements lack `=` or a name, then requires no diagnostics and statements named `a`, `b`, `foobar` | the held text gives three nil statement slots and three diagnostics, so the error check fails | the commented-out text at lines 10-15, which parses into the three named statements with no diagnostics | high, from the proof; not executed | ParserTest.TestAtomStatement | ParserTest.TestAtomStatementIntended |
