# A verified model of the BUAA-2024 SysY compiler front end

This project models, in Dafny, the core of a small compiler for SysY (a C subset with `int`, `char`,
one-dimensional arrays, `getint`, `getchar` and `printf`) that translates a source program to LLVM IR.
The compiler runs four passes, and each pass is one Dafny module:

- **Lexer** (`lexer.dfy`, class `Lexer.Lexer`): the line-by-line tokenizer, with the `a` diagnostic for a lone `&` or `|`, and the token cursor the parser moves.
- **Parser** (`parser.dfy`, class `Parser.Parser`): the recursive-descent parser that builds the syntax tree of `nodes.dfy` and records the `i`, `j` and `k` diagnostics for a missing `;`, `)` or `]`.
- **Semantics** (`visitor.dfy`, class `Semantics.Visitor`): the semantic analyser. It fills the scope table (`symbol_table.dfy`, class `SymbolTables.SymbolTable`), folds constant expressions with Java `int` arithmetic, expands initialisers and records the diagnostics `b c d e f g h l m`.
- **IrGeneration** (`ir_generator.dfy`, class `IrGeneration.IRGenerator`): the generator. It walks the tree again over the same scopes and prints LLVM IR instructions.

Supporting modules:

- `tokens.dfy`: token kinds and reserved words.
- `utilities.dfy`: character-literal decoding.
- `value_types.dfy` and `function_types.dfy`: the analyser's types and their names.
- `llvm_types.dfy`: the LLVM types.
- `program_exceptions.dfy`: the diagnostics list and its stable sort by line.
- `java_int.dfy`: 32-bit wrap-around and Java's truncating division.
- `text.dfy`: decimal text.
- `outcomes.dfy`: `Option` and `Result`.

Every Java exception the code can raise is modelled as a `Throws` result carrying the exception's kind:

- a null dereference;
- an index out of bounds;
- a failed cast;
- a number-format error;
- an arithmetic error;
- `UnknownError`;
- the parser's `error` exception.

Functions specify what each step computes. The classes carry the state the Java objects update in place:

- the token cursor;
- the scope table and its current scope;
- the diagnostics list;
- the current return type;
- the printed output;
- the next free virtual register.

The methods that lex, analyse an expression or a leaf statement, declare one symbol, bind parameters, or generate the code of an expression, a leaf statement, a local or global definition or a function prologue are proved to compute exactly what their specifying functions describe. The methods that walk composite statements, blocks, declarations and whole programs, and the parser's methods, are proved to keep the invariants of that state and the stated frame facts; "Left out" names each of them. All methods keep the invariants of the state they change.

## Model

| member | source | states |
|---|---|---|
| JavaInt.Wrap | semantics/Visitor.java:390-392 | the Java `int` congruent to `x` modulo 2^32, and `x` itself when it is in range |
| JavaInt.Add | semantics/Visitor.java:390 | constant `+` folds to the wrapped 32-bit sum, the exact sum when it fits |
| JavaInt.Sub | semantics/Visitor.java:391 | constant `-` folds to the wrapped 32-bit difference, the exact one when it fits |
| JavaInt.Mul | semantics/Visitor.java:392 | constant `*` folds to the wrapped 32-bit product, the exact one when it fits |
| JavaInt.Neg | semantics/Visitor.java:425 | unary minus negates, except that the most negative `int` stays itself |
| JavaInt.TruncDivisionHolds | semantics/Visitor.java:393-394 | the quotient rounded toward zero and its remainder satisfy `a == q*b + r`, the remainder is smaller than the divisor in magnitude, and `r` has the dividend's sign |
| JavaInt.TruncRemMagnitude | semantics/Visitor.java:394 | the truncating remainder is the remainder of the magnitudes carrying the dividend's sign |
| JavaInt.TruncDivisionUnique | semantics/Visitor.java:393-394 | any quotient and remainder with those properties are the truncating ones |
| JavaInt.Div | semantics/Visitor.java:393 | constant `/` truncates toward zero, and `MIN / -1` wraps to `MIN` |
| JavaInt.QuotInRange | semantics/Visitor.java:393 | apart from `MIN / -1`, the truncated quotient of two `int`s is itself an `int` |
| JavaInt.Rem | semantics/Visitor.java:394 | constant `%` is the truncating remainder |
| JavaInt.NarrowToChar | semantics/Visitor.java:99-100 | a `char` constant keeps the low 8 bits of its value, sign-extended: in `-128..127`, congruent modulo 256, unchanged when it already fits |
| Text.ParseInt | semantics/Visitor.java:460 | `Integer.parseInt`: succeeds exactly on an optional sign followed by one or more digits whose value lies in the `int` range, with that value; otherwise `NumberFormatException` |
| Text.ParseIntRange | semantics/Visitor.java:460 | `2147483648` is refused while `-2147483648` reads as the smallest `int` |
| Text.ParseIntOfIntToString | semantics/Visitor.java:460 | reading back the decimal text of any `int` gives that `int` |
| Utilities.GetASCII | util/Utilities.java:13-62 | `getASCII` throws exactly on the empty text (`charAt(0)`) and on a lone `'` (`substring(1, 0)`), and returns a code only for a quoted literal |
| Utilities.QuotedCharCode | util/Utilities.java:46-58 | a one-character literal `'c'` gives the code of `c`, the quote and the double quote included (characters beyond 16 bits: see Left out) |
| Utilities.EscapeDecoding | util/Utilities.java:19-45 | `'\x'` gives the code of the escape `\x` from the source's table, and `null` for a letter outside it |
| Utilities.LongLiteralIsNull | util/Utilities.java:52-61 | a quoted text of two or more characters that is not a known escape gives `null` |
| Utilities.UnquotedIsNull | util/Utilities.java:13-16 | a text that does not start and end with `'` gives `null` |
| Tokens.FromWord | lexical/Token.java:62-128 | the token keeps its text and line, and its kind is the reserved word's or operator's kind, else `IDENFR` |
| Tokens.IdentifierIffNotReserved | lexical/Token.java:62-128 | a word is an identifier exactly when it is not one of the reserved words and two-character operators |
| Tokens.ReservedDistinct | lexical/Token.java:62-128 | distinct reserved words get distinct kinds, none of them `IDENFR` |
| Tokens.FromChar | lexical/Token.java:130-187 | a one-character token exists exactly for the punctuation characters, with that character's kind; any other character raises `UnknownError` |
| ValueTypes.NewValueType | symbol/ValueType.java:8-11 | a fresh value type is neither const nor an array |
| ValueTypes.TypeNameByTable | symbol/ValueType.java:13-29 | `toString` is the one of eight names given by const-ness, base type and array-ness |
| ValueTypes.TypeNameInjective | symbol/ValueType.java:13-29 | equal names mean equal const-ness, base type and array-ness |
| ValueTypes.LengthNotPrinted | symbol/ValueType.java:25-27 | the array length does not change the name |
| FunctionTypes.NewFunctionType | symbol/FunctionType.java:11-13 | a new function type has the given return type and no parameters |
| FunctionTypes.FunctionTypeNameDistinct | symbol/FunctionType.java:15-26 | the name tells the return types apart (an if-and-only-if) and never equals a value type's name |
| LlvmTypes.Basic | llvm/Type.java:15-37 | each factory method gives its kind with a `null` length |
| LlvmTypes.ScalarTextsDistinct | llvm/Type.java:41-46 | the scalar and pointer kinds print as non-empty texts that are equal exactly when the kinds are |
| LlvmTypes.ArrayPointerAppendsStar | llvm/Type.java:47-50 | an array pointer prints as its array type followed by `*` |
| LlvmTypes.IntToStringInjective | llvm/Type.java:47-50 | distinct `int` lengths print as distinct numerals |
| LlvmTypes.ArrayTextInjective | llvm/Type.java:47-48 | an array type's text determines its element kind and its length |
| LlvmTypes.FirstSpace | llvm/Type.java:47-48 | in `[n x t]` the first space comes right after the numeral |
| LlvmTypes.NumeralHasNoSpace | llvm/Type.java:47-48 | a printed length contains no space |
| ProgramExceptions.RenderReadsBack | program/ProgramException.java:48-51 | the printed `line code` form ends with a space and the code, and the part before reads back as the line |
| ProgramExceptions.InsertByLinePermutes | program/ProgramException.java:18-25 | one insertion step of the sort adds exactly that entry |
| ProgramExceptions.InsertByLineSorted | program/ProgramException.java:18-25 | inserting into a list sorted by line keeps it sorted |
| ProgramExceptions.InsertByLineKeepsOrder | program/ProgramException.java:18-25 | inserting keeps the order of the entries on each line |
| ProgramExceptions.StableSortSorted | program/ProgramException.java:18-25 | sorting leaves the lines non-decreasing |
| ProgramExceptions.StableSortPermutes | program/ProgramException.java:18-25 | sorting is a permutation of the entries |
| ProgramExceptions.StableSortKeepsOrder | program/ProgramException.java:18-25 | entries on the same line keep their order, since `List.sort` is stable |
| ProgramExceptions.ExceptionList.constructor | program/ProgramException.java:8 | the list starts empty |
| ProgramExceptions.ExceptionList.NewException | program/ProgramException.java:14-16 | `newException` appends exactly one entry at the end |
| ProgramExceptions.ExceptionList.AppendAll | program/ProgramException.java:14-16 | a run of `newException` calls appends its entries in order |
| ProgramExceptions.ExceptionList.SortExceptions | program/ProgramException.java:18-25 | `sortExceptions` leaves the list sorted by line, a permutation of the old one, with each line's entries in their old order |
| Text.NatToStringDigits | llvm/Type.java:47-48 | the decimal text of a natural number is a non-empty digit string whose value is the number |
| Text.IntToStringSign | llvm/Type.java:47-48 | the decimal text of an integer is non-empty and starts with `-` exactly when the integer is negative |
| Lexer.WordEnd | lexical/Lexer.java:44-56 | the identifier loop stops at the first character that is neither a letter, `_` nor a digit, or at the end of the line |
| Lexer.DigitsEnd | lexical/Lexer.java:62-73 | the number loop stops at the first non-digit or at the end of the line |
| Lexer.QuoteAt | lexical/Lexer.java:79-96 | the string loop's closing quote is the first `"` after the opening one, if the line has one |
| Lexer.Printable | lexical/Lexer.java:90-95 | a string constant keeps only characters 32..126 between its quotes |
| Lexer.PrintableKeepsAll | lexical/Lexer.java:90-95 | a text made only of characters 32..126 is kept whole |
| Lexer.PrintableCounts | lexical/Lexer.java:90-95 | each printable character is kept exactly as often as it occurs, and no other character is kept |
| Lexer.PrintableSnoc | lexical/Lexer.java:90-95 | appending one character to the scanned text appends it to the kept text exactly when it is printable |
| Lexer.PrintableConcat | lexical/Lexer.java:90-95 | keeping the printable characters commutes with concatenation, so the kept characters stay in their source order |
| Lexer.SkipComment | lexical/Lexer.java:198-213 | a block comment that closes resumes right after the first `*` `/` at or after the start, at a position inside the program; the only failure is `IndexOutOfBounds` |
| Lexer.MatchClose | lexical/Lexer.java:206-212 | the test at one position either succeeds there or continues, so it too resumes right after the first `*` `/` at or after that position; only `IndexOutOfBounds` is thrown |
| Lexer.CharLiteral | lexical/Lexer.java:99-125 | throws exactly when the line ends before the closing-quote position (one character, or a backslash and one, after the opening quote); otherwise one `CHRCON` token whose text is the consumed slice when that position holds a quote, and no token with scanning resumed at that position when it does not |
| Lexer.WithEquals | lexical/Lexer.java:126-135 | throws exactly when the character ends the line; otherwise exactly one token, of the two-character operator when `=` follows and of the single character otherwise, whose text is what was consumed, and no diagnostic |
| Lexer.Doubled | lexical/Lexer.java:136-159 | throws exactly when the character ends the line; otherwise exactly one token whose text is what was consumed: `AND` or `OR` when doubled, and `AND` with one `'a'` diagnostic at line + 1 when alone |
| Lexer.Slash | lexical/Lexer.java:194-219 | `/` moves forward, and whatever it produces belongs to its line |
| Lexer.Step | lexical/Lexer.java:35-223 | each pass of the inner loop moves strictly forward inside the program, and its tokens (never EOF) and diagnostics belong to the current line |
| Lexer.SkipBlockComment | lexical/Lexer.java:198-213 | the block-comment loop computes `SkipComment` |
| Lexer.ScanWord | lexical/Lexer.java:42-57 | the identifier loop collects exactly the maximal run `WordEnd` gives |
| Lexer.ScanDigits | lexical/Lexer.java:60-74 | the number loop collects exactly the maximal digit run |
| Lexer.StringLiteral | lexical/Lexer.java:76-98 | a string constant stays on its line and moves forward; the only failure is `IndexOutOfBounds`; `Lexer.StringConstant` states its text |
| Lexer.ScanStringStep | lexical/Lexer.java:79-96 | a character other than `"` leaves the closing quote where it was and is appended to the kept text exactly when it is printable |
| Lexer.ScanString | lexical/Lexer.java:76-97 | the string loop computes `StringLiteral`: the quoted printable characters up to the next `"`, or `IndexOutOfBounds` when the line has none |
| Lexer.StepAt | lexical/Lexer.java:34-224 | the body of the inner loop computes `Step` |
| Lexer.Scan | lexical/Lexer.java:31-227 | specifying function without a contract of its own: the tokens and diagnostics from a position to the end, each step's in order, closed by EOF; `Lexer.ScanWellFormed` and `Lexer.Tokenize` state its properties |
| Lexer.Lex | lexical/Lexer.java:16-29 | specifying function without a contract of its own: `Scan` from the first column of the first line; `Lexer.LexWellFormed` and `Lexer.Tokenize` state its properties |
| Lexer.Tokenize | lexical/Lexer.java:31-227 | the constructor's two loops compute `Lex`: every step's tokens and diagnostics in order, then EOF |
| Lexer.ScanWellFormed | lexical/Lexer.java:31-227 | a successful scan ends with exactly one EOF, on the line after the last; other tokens lie on program lines in non-decreasing order; diagnostics are `'a'` on 1-based lines |
| Lexer.LexWellFormed | lexical/Lexer.java:227 | the same for the whole program |
| Lexer.BlankIsSkipped | lexical/Lexer.java:37-40 | space, tab, CR and LF produce nothing |
| Lexer.LineCommentEndsLine | lexical/Lexer.java:195-197 | `//` discards the rest of the line |
| Lexer.BlockCommentHasNoTokens | lexical/Lexer.java:198-214 | a block comment produces no token and no diagnostic, and scanning resumes right after the first `*` `/` that starts after the opening `/` `*`, possibly lines later |
| Lexer.WordIsMaximalRun | lexical/Lexer.java:41-58 | an identifier or keyword is the maximal run of word characters, classified by its text |
| Lexer.NumberIsMaximalRun | lexical/Lexer.java:59-75 | an integer constant is the maximal run of digits, with exactly that text |
| Lexer.StringConstant | lexical/Lexer.java:76-98 | a string constant throws exactly when no `"` follows on the line; otherwise it is one `STRCON` token: the quotes around exactly the printable characters between them, in order, ending at the first `"` |
| Lexer.TwoCharOperatorWins | lexical/Lexer.java:126-189 | `!=`, `==`, `<=`, `>=` are taken over their one-character prefixes |
| Lexer.LogicalOperators | lexical/Lexer.java:136-159 | `&&` and the double bar are single tokens; a lone `&` or bar is an AND token and an `'a'` at line + 1 |
| Lexer.EmptyLineInsideBlockComment | lexical/Lexer.java:200-206 | a block comment crossing an empty line makes `charAt(0)` throw |
| Lexer.Lexer.constructor | lexical/Lexer.java:16-29 | the cursor starts on the first token of the list |
| Lexer.Lexer.NextToken | lexical/Lexer.java:230-241 | `nextToken` advances and returns true exactly when the cursor is not on the last token |
| Lexer.Lexer.PrevToken | lexical/Lexer.java:243-251 | `prevToken` steps back and returns true exactly when the cursor is not on the first token |
| Lexer.Lexer.CurrentToken | lexical/Lexer.java:253-255 | the token under the cursor |
| Lexer.Lexer.PreRead | lexical/Lexer.java:256-258 | `tokenPreRead(bias)` is the token `bias` places away, and throws exactly when that is outside the list |
| Lexer.Lexer.TokenAt | lexical/Lexer.java:264-266 | `getTokenAt(pos)` succeeds exactly inside the list |
| Parser.AssignmentAheadFindsAssign | syntax/Parser.java:296-309 | the statement look-ahead finds an assignment exactly when some `=` comes before every `;` and every token on a later line |
| Parser.AssignmentAheadFails | syntax/Parser.java:296-309 | the look-ahead throws exactly when nothing stops it before the end of the token list |
| Parser.Parser.constructor | syntax/Parser.java:18-22 | the parser reads the given token cursor and records into the given diagnostics list |
| Parser.Parser.Advance | syntax/Parser.java:783-796 | `nextToken` on a token other than EOF moves the cursor by one |
| Parser.Parser.SkipSign | syntax/Parser.java:783-796 | `skipSign`: a matching token is consumed; otherwise the cursor stays, a code records (previous token's line + 1, code), no code raises `error`, and at the first token `tokenPreRead(-1)` throws |
| Parser.Parser.Expect | syntax/Parser.java:783-796 | `skipSign` with a code after at least one token: either the token is consumed or exactly one diagnostic is appended |
| Parser.Parser.Require | syntax/Parser.java:783-796 | `skipSign` without a code succeeds exactly when the token matches, and then consumes it |
| Parser.Parser.ParseCompUnit | syntax/Parser.java:24-66 | the loop stops at `int main (` (having parsed main) or at EOF; every declaration it collected is well shaped |
| Parser.Parser.ParseMainFuncDef | syntax/Parser.java:68-79 | main starts at an `int` and records its line |
| Parser.Parser.ParseFuncType | syntax/Parser.java:81-94 | succeeds exactly on `void`, `int` or `char`, returns that token and consumes it |
| Parser.Parser.ParseFuncDef | syntax/Parser.java:96-122 | a function definition records its line and a `void`/`int`/`char` type; a parameter list, when present, is not empty |
| Parser.Parser.ParseFuncFParams | syntax/Parser.java:124-134 | one or more parameters |
| Parser.Parser.ParseFuncFParam | syntax/Parser.java:136-164 | a parameter's base type is `int` exactly when it starts with `int` |
| Parser.Parser.ParseBlock | syntax/Parser.java:166-177 | a block starts at `{`, ends just after a `}`, and records that `}`'s line |
| Parser.Parser.ParseBlockItem | syntax/Parser.java:179-194 | an item is a declaration exactly when it starts with `int`, `char` or `const` |
| Parser.Parser.ParseStmt | syntax/Parser.java:196-351 | the leading token fixes the case number; otherwise the `=` look-ahead decides: an assignment form (cases 0, 8, 9) exactly when it finds `=`, else an expression statement |
| Parser.Parser.ParseIfStmt | syntax/Parser.java:203-213 | an `if` statement whose condition is an or-level chain |
| Parser.Parser.ParseForLoop | syntax/Parser.java:214-250 | a `for` after `(`: the init part is absent exactly when `;` follows; the parts present are assignments and an or-level condition |
| Parser.Parser.ParseForInit | syntax/Parser.java:218-224 | the init part is absent exactly when it starts with `;`, otherwise an assignment |
| Parser.Parser.ParseForCond | syntax/Parser.java:225-236 | the condition is absent exactly when it starts with `;` or `)` |
| Parser.Parser.ParseForUpdate | syntax/Parser.java:237-249 | the update is absent exactly when it starts with `)` or `{`, otherwise an assignment |
| Parser.Parser.ParseReturnStmt | syntax/Parser.java:261-276 | a `return` whose expression, when present, is an additive chain and is absent when `;` follows |
| Parser.Parser.ParsePrintfStmt | syntax/Parser.java:277-294 | a `printf` whose format is a string constant and whose arguments are additive chains |
| Parser.Parser.ParseSimpleStmt | syntax/Parser.java:295-348 | the look-ahead decides between the assignment forms and the expression statement |
| Parser.Parser.AssignmentLookahead | syntax/Parser.java:296-309 | the `tokenPreRead(i)` loop computes `AssignmentAhead` and moves nothing |
| Parser.Parser.ParseAssignStmt | syntax/Parser.java:310-336 | an assignment form (case 0, 8 or 9) whose `=` lies after its start; `getint` or `getchar` right after the `=` picks case 8 or 9 |
| Parser.Parser.ParseAssignedValue | syntax/Parser.java:313-335 | keeps the lvalue, and is `getint`/`getchar` exactly when that keyword comes first |
| Parser.Parser.ParseExpStmt | syntax/Parser.java:337-347 | an expression statement, empty exactly when it starts with `;` |
| Parser.Parser.ParseForStmt | syntax/Parser.java:353-362 | `lval = exp`, with a well-shaped lvalue and an additive chain |
| Parser.Parser.ParseCond | syntax/Parser.java:364-368 | a condition is an or-level chain |
| Parser.Parser.ParseLevel | syntax/Parser.java:370-445 | each binary level builds a left-associative chain of its own operators over the next level, and stops at a token that is not one of them |
| Parser.Parser.ParseOperand | syntax/Parser.java:625-661 | an operand is the next level's chain, or a unary expression below `*` |
| Parser.Parser.ParseExp | syntax/Parser.java:619-623 | an expression is an additive chain |
| Parser.Parser.ParseUnaryExp | syntax/Parser.java:663-695 | a prefix form exactly on `+ - !`, a call exactly on a name followed by `(`, else a primary expression |
| Parser.Parser.ParseCallExp | syntax/Parser.java:666-680 | a call keeps the name, and its arguments are additive chains |
| Parser.Parser.ParsePrimaryExp | syntax/Parser.java:697-739 | `(` gives a parenthesised expression, a name an lvalue, a number or character constant exactly that token (always successfully) |
| Parser.Parser.ParseLval | syntax/Parser.java:741-757 | an lvalue starts with a name (else it fails), keeps it, and is indexed exactly when `[` follows |
| Parser.Parser.ParseFuncRParams | syntax/Parser.java:759-774 | one or more arguments, each an additive chain |
| Parser.Parser.ParseConstDecl | syntax/Parser.java:446-474 | a `const` declaration whose definitions are constants with initialisers |
| Parser.Parser.ParseVarDecl | syntax/Parser.java:476-503 | a variable declaration, of type `int` exactly when it starts with `int` |
| Parser.Parser.ParseVarConstDef | syntax/Parser.java:505-546 | a definition keeps its name, agrees with its declaration on const-ness, and a constant has an initialiser |
| Parser.Parser.ParseInitVal | syntax/Parser.java:548-617 | a string initialiser exactly on a string constant (keeping its text), one expression unless it starts with `{` |
| SymbolTables.SameShapeLinks | symbol/SymbolTable.java:13-14 | changing only the bindings of scopes keeps every parent link older than its child and the children sets matching the parent links |
| SymbolTables.RebindKeepsShape | symbol/SymbolTable.java:10-11 | replacing one scope's bindings, with its ordered name list kept in step, leaves the tree well formed |
| SymbolTables.AddChildNumbered | symbol/SymbolTable.java:99-115 | a new scope gets the next number, so scope `i` is still numbered `i` |
| SymbolTables.AddChildParents | symbol/SymbolTable.java:99-115 | the new scope's parent is an older scope |
| SymbolTables.AddChildChildren | symbol/SymbolTable.java:102 | registering the new scope with its parent keeps children and parent links in agreement |
| SymbolTables.AddChildKeepsShape | symbol/SymbolTable.java:99-115 | opening a scope keeps the tree well formed |
| SymbolTables.BindKeepsOrder | symbol/SymbolTable.java:45-54 | binding a new name and appending it to the ordered list keeps each bound name in the list exactly once |
| SymbolTables.BinderIn | symbol/SymbolTable.java:60-72 | the scope a lookup stops at is on the path to the root and binds the name |
| SymbolTables.Chain | symbol/SymbolTable.java:60-72 | the path a lookup walks starts at the scope itself and only visits older scopes |
| SymbolTables.NotFoundIffUnbound | symbol/SymbolTable.java:60-72 | `searchSymbol` returns `null` exactly when no scope on the path to the root binds the name |
| SymbolTables.FirstBinderStep | symbol/SymbolTable.java:65-67 | a scope that does not bind the name passes the search to its parent |
| SymbolTables.FoundIsNearest | symbol/SymbolTable.java:60-72 | a found symbol is the binding of the first scope on the path that binds the name (inner declarations shadow outer ones) |
| SymbolTables.BinderGivesLookup | symbol/SymbolTable.java:60-72 | the scope `BinderIn` names is the one whose binding the search returns, and it exists exactly when the search succeeds |
| SymbolTables.Rebind | symbol/SymbolTable.java:10 | replacing a binding keeps the number of scopes and the parent links |
| SymbolTables.RebindKeepsWellFormed | symbol/SymbolTable.java:10 | replacing a binding keeps the tree well formed |
| SymbolTables.LookupAfterRebind | symbol/SymbolTable.java:60-72 | after replacing the binding of a name in scope `k`, a search answers the new symbol exactly when it would have stopped at `k`, and otherwise as before |
| SymbolTables.RebindKeepsOtherNames | symbol/SymbolTable.java:60-72 | searches for every other name, from every scope, are unchanged |
| SymbolTables.Renamed | llvm/IRGenerator.java:65-67 | giving a symbol its IR name keeps the number of scopes and the parent links |
| SymbolTables.LookupAfterRenamed | llvm/IRGenerator.java:65-67 | after naming, the name resolves to the same symbol with the new IR name, and every other name to what it did |
| SymbolTables.SymbolTable.constructor | symbol/SymbolTable.java:88-93 | the static initialiser: one root scope numbered 1, without parent or return type, current, and the count at 1 |
| SymbolTables.SymbolTable.Current | symbol/SymbolTable.java:95-97 | the current scope's number is `current` |
| SymbolTables.SymbolTable.InsertSymbol | symbol/SymbolTable.java:45-54 | refuses exactly a name already bound in the current scope; otherwise binds it, appends it to the ordered list and returns it; no other scope changes |
| SymbolTables.SymbolTable.InsertNew | symbol/SymbolTable.java:29-43 | the same for a new symbol that carries the current scope's number, its line and no values |
| SymbolTables.SymbolTable.NewScope | symbol/SymbolTable.java:108-115 | a scope numbered one past the count, child of the current one, with the given return type, appended and made current |
| SymbolTables.SymbolTable.NewBlockScope | symbol/SymbolTable.java:99-106 | the same, inheriting the current scope's return type |
| SymbolTables.SymbolTable.BackToUpperScope | symbol/SymbolTable.java:117-120 | the parent becomes current, `null` above the root |
| SymbolTables.SymbolTable.JumpToChild | symbol/SymbolTable.java:122-126 | moves to scope `n` exactly when it is a child of the current scope |
| SymbolTables.SymbolTable.SetIrName | llvm/IRGenerator.java:65-67 | the nearest binding of the name gets the IR name; `false` exactly when nothing binds it |
| Semantics.After | semantics/Visitor.java:349-406 | diagnostics recorded earlier come first, and the result is untouched |
| Semantics.Fold | semantics/Visitor.java:387-403 | folding a constant node: arithmetic and comparisons need both values (unboxing `null` throws), `/` and `%` by zero throw `ArithmeticException`, `&&`/or short-circuit on the left value, `==`/`!=` use `equals`, comparisons and logic give 0 or 1, an operator outside the switch leaves `null` |
| Semantics.FoldWraps | semantics/Visitor.java:390-392 | folded `+`, `-`, `*` are the exact results wrapped to 32 bits |
| Semantics.FoldDivision | semantics/Visitor.java:393-394 | folded `/` and `%` form a division rounding toward zero |
| Semantics.Element | semantics/Visitor.java:320-345 | reading a recorded value succeeds exactly for an index inside the list; a `null` index throws |
| Semantics.CallInfo | semantics/Visitor.java:487-505 | a call of a `void` function has a `null` info; otherwise a non-constant scalar, `char` exactly for a `char` function |
| Semantics.Combine | semantics/Visitor.java:383-403 | a binary node is `null` exactly when an operand's info is; otherwise a scalar `int`, constant exactly when both operands are, with the folded value |
| Semantics.Apply | semantics/Visitor.java:417-445 | `+` passes its operand through; `-` negates (wrapping) and `!` maps 0 to 1 and the rest to 0, only for a constant; a `null` constant value throws; any other operator fails |
| Semantics.CharCode | semantics/Visitor.java:467 | a character code is boxed as a Java `int` when it has one |
| Semantics.EvalExp | semantics/Visitor.java:349-406 | specifying function without a contract of its own: the diagnostics and info of `visitExp`, operands left to right, folded by `Combine`; `Semantics.ExpSound`, `Semantics.BinaryInfo` and `Semantics.Visitor.VisitExp` state its properties |
| Semantics.EvalOperand | semantics/Visitor.java:357-381 | specifying function without a contract of its own: a sub-expression or a unary expression; `Semantics.OperandSound` states its properties |
| Semantics.EvalUnary | semantics/Visitor.java:408-449 | specifying function without a contract of its own: a primary, a call, or a prefix operator applied by `Apply`; `Semantics.UnarySound` and `Semantics.CallChecks` state its properties |
| Semantics.EvalArgs | semantics/Visitor.java:511-531 | specifying function without a contract of its own: the argument loop of a call from argument `i`; `Semantics.ArgsSound`, `Semantics.ArgsStopAtFirstMismatch`, `Semantics.ArgsAllFit` and `Semantics.ArgsNullArgument` state its properties |
| Semantics.EvalPrimary | semantics/Visitor.java:451-477 | specifying function without a contract of its own: a parenthesised expression, an lvalue, a number or a character; `Semantics.PrimarySound` and `Semantics.LiteralValue` state its properties |
| Semantics.EvalLval | semantics/Visitor.java:307-347 | specifying function without a contract of its own: the lookup of the name and the index's analysis; `Semantics.LvalSound`, `Semantics.LvalChecks` and `Semantics.Visitor.VisitLval` state its properties |
| Semantics.ExpSound | semantics/Visitor.java:349-406 | analysing an expression records only `c`, `d` and `e`, and only constants carry a value |
| Semantics.OperandSound | semantics/Visitor.java:357-381 | the same for an operand |
| Semantics.UnarySound | semantics/Visitor.java:408-449 | a unary expression, a call included, records only `c`, `d` and `e`, and only constants carry a value |
| Semantics.ArgsSound | semantics/Visitor.java:506-533 | the argument checks of a call record only `c`, `d` and `e`, and the info they give is the call's own |
| Semantics.PrimarySound | semantics/Visitor.java:451-477 | the same for a primary expression |
| Semantics.LvalSound | semantics/Visitor.java:307-347 | the same for an lvalue |
| Semantics.CallChecks | semantics/Visitor.java:483-533 | a call of an unbound name records exactly one `'c'` at line + 1 and gives `null`; a name bound to a value fails the cast; a wrong argument count records exactly one `'d'` and gives the return type's info; otherwise the arguments are checked as `EvalArgs` says |
| Semantics.ArgsStopAtFirstMismatch | semantics/Visitor.java:511-531 | when the arguments before `k` fit and argument `k` has a mismatching type, the diagnostics are those arguments' own, then exactly one `'e'` at line + 1, and no later argument is analysed |
| Semantics.ArgsAllFit | semantics/Visitor.java:511-531 | when every argument fits, no `'e'` is recorded and the call's info is the result |
| Semantics.ArgsNullArgument | semantics/Visitor.java:511-517 | an argument with `null` info ends the checks with `null` after its own diagnostics |
| Semantics.LvalChecks | semantics/Visitor.java:307-318 | an unbound lvalue records exactly one `'c'` at line + 1 and gives `null`; a name bound to a function throws without a diagnostic |
| Semantics.BinaryInfo | semantics/Visitor.java:383-403 | a binary node's diagnostics are its operands' in order; its info is `null` exactly when an operand's is, a non-constant `int` unless both are constant, and otherwise the folded constant or the fold's exception |
| Semantics.Zeros | semantics/Visitor.java:107-109 | `n` zeros, none when `n` is not positive |
| Semantics.Codes | semantics/Visitor.java:81-83 | a string's character codes, in order |
| Semantics.StringValues | semantics/Visitor.java:80-87 | a string initialiser records the codes between the quotes, then zeros from index length - 2 up to the array length |
| Semantics.ShortStringValues | semantics/Visitor.java:84-86 | a text shorter than two quotes records only zeros |
| Semantics.StringInitExample | semantics/Visitor.java:80-87 | `char a[5] = "hi"` records 104, 105 and three zeros |
| Semantics.Entry | semantics/Visitor.java:94-105 | an entry of a `char` constant is narrowed to its low 8 bits, sign-extended; `int` entries and `null` are kept |
| Semantics.ListValues | semantics/Visitor.java:88-110 | specifying function without a contract of its own: the expression-list loop of `initConst`; `Semantics.ListValuesEntries` and `Semantics.Visitor.ListInit` state its properties |
| Semantics.ListValuesEntries | semantics/Visitor.java:88-110 | when every expression analyses to a non-`null` info without throwing, the list is the earlier entries, then one narrowed entry per expression, then the zero padding up to the length |
| Semantics.ConstInit | semantics/Visitor.java:78-114 | specifying function without a contract of its own: a missing initialiser throws, a string gives `StringValues`, a list gives `ListValues`; `Semantics.StringValues`, `Semantics.ListValuesEntries` and `Semantics.Visitor.InitConst` state its properties |
| Semantics.DefValues | semantics/Visitor.java:53-66 | an uninitialised variable gets one zero per element, or a single zero for a scalar |
| Semantics.DefSymbol | semantics/Visitor.java:36-70 | the symbol built for a definition has its name, line, the current scope, the declared base type and const-ness, and no IR name |
| Semantics.Inserted | symbol/SymbolTable.java:45-54 | `insertSymbol` changes only the current scope, and the list keeps its length |
| Semantics.DeclEffect | semantics/Visitor.java:34-76 | what `visitDecl` does from definition `i` on keeps the current scope valid and the list's length; `Semantics.DeclEffectExtends` and `Semantics.SingleDeclaration` state its properties |
| Semantics.InsertedExtends | symbol/SymbolTable.java:45-54 | inserting a symbol only extends the scope list, and its name is bound afterwards |
| Semantics.DeclEffectExtends | semantics/Visitor.java:34-76 | a declaration only extends the scope list, and on success every name it defines is bound in the current scope |
| Semantics.DefinesKept | semantics/Visitor.java:34-76 | defined names stay bound in a scope that keeps its bindings |
| Semantics.SingleDeclaration | semantics/Visitor.java:34-76 | a one-definition declaration whose symbol builds: a free name is bound to that symbol with no further diagnostic, and a taken one leaves the scopes unchanged and adds exactly one `'b'` at line + 1 |
| Semantics.ConstDefExample | semantics/Visitor.java:36-70 | `const int N = 3+4;` records the value 7 |
| Semantics.SingletonList | semantics/Visitor.java:88-110 | a one-expression list for an `int` scalar records exactly the folded value |
| Semantics.LiteralValue | semantics/Visitor.java:459-464 | an integer literal is a constant `int` with the literal's value |
| Semantics.ThreePlusFourIsSeven | semantics/Visitor.java:383-390 | `3+4` folds to the constant 7 |
| Semantics.StringDefExample | semantics/Visitor.java:36-87 | `char a[5] = "hi";` declares a `char` array of length 5 holding 104, 105, 0, 0, 0 |
| Semantics.ZeroFill | semantics/Visitor.java:59-61 | the zero-fill loop produces exactly `Zeros(n)` |
| Semantics.StringInit | semantics/Visitor.java:80-87 | the two string loops produce exactly `StringValues` (or only the zeros for a too-short text) |
| Semantics.PlaceholdersFit | semantics/Visitor.java:289-296 | placeholders never overlap: their count is at most half the format's length |
| Semantics.CountPlaceholders | semantics/Visitor.java:289-296 | the counting loop over the format counts exactly the `%c` and `%d` pairs |
| Semantics.ReturnOf | semantics/Visitor.java:121-130 | the return type is `void` exactly for `void` and `int` exactly for `int` |
| Semantics.ParamType | semantics/Visitor.java:163-171 | a parameter's type has its base type, is not const, and is an array exactly for an array parameter |
| Semantics.ParamNames | semantics/Visitor.java:163-171 | the names of the parameters, in order |
| Semantics.ParamTypes | semantics/Visitor.java:163-171 | the types of the parameters, in order |
| Semantics.BindParamsKeys | semantics/Visitor.java:163-179 | binding the parameters adds exactly their names to the function's scope |
| Semantics.BindParamsKeeps | semantics/Visitor.java:163-179 | earlier bindings survive, and each new binding is a non-constant parameter symbol of that scope |
| Semantics.BindParamsFirst | semantics/Visitor.java:163-179 | a parameter whose name is free and not used by an earlier parameter is bound to its own symbol |
| Semantics.ParamStep | semantics/Visitor.java:164-177 | one more parameter adds its name, its own `'b'` if taken, and its own binding otherwise |
| Semantics.ParamDiagsCount | semantics/Visitor.java:163-179 | every parameter either binds a new name or records exactly one `'b'` |
| Semantics.ParamDiagsCodes | semantics/Visitor.java:173 | the diagnostics of the parameter list are all `'b'` |
| Semantics.FinalReturnMeansReturn | semantics/Visitor.java:148-157 | the final-return check passes exactly when the block's last item is a `return` statement |
| Semantics.NamesStayBound | semantics/Visitor.java:28-30 | names already declared in a scope stay declared after one more declaration |
| Semantics.ExtendsTrans | semantics/Visitor.java:24-32 | two steps of the walk that extend the scope list compose into one |
| Semantics.BindExtends | symbol/SymbolTable.java:45-54 | binding a new name in the current scope extends the scope list |
| Semantics.ExtendsNested | semantics/Visitor.java:226-229 | a step taken in a newer scope does not disturb the older ones |
| Semantics.Discard | semantics/Visitor.java:213-305 | dropping the info keeps success and the exception |
| Semantics.Visitor.constructor | semantics/Visitor.java:19-22 | the analyser uses the given table and diagnostics list, with no current return type |
| Semantics.Visitor.VisitExp | semantics/Visitor.java:349-406 | `visitExp` returns `EvalExp`'s info and records exactly its diagnostics |
| Semantics.Visitor.VisitLval | semantics/Visitor.java:307-347 | `visitLval` returns `EvalLval`'s info and records exactly its diagnostics |
| Semantics.Visitor.ListInit | semantics/Visitor.java:88-110 | the expression-list loop returns `ListValues` and records exactly its diagnostics |
| Semantics.Visitor.InitConst | semantics/Visitor.java:78-114 | `initConst` returns `ConstInit` and records its diagnostics |
| Semantics.Visitor.DefInit | semantics/Visitor.java:53-66 | the values recorded for a definition are `DefValues` |
| Semantics.Visitor.BuildSymbol | semantics/Visitor.java:36-70 | the symbol built for a definition is `DefSymbol`'s, with its diagnostics |
| Semantics.Visitor.Declare | semantics/Visitor.java:71-74 | a name already bound in the current scope records `'b'` at line + 1 and changes nothing; otherwise it is bound; the scope list becomes `Inserted`, and no other scope changes |
| Semantics.Visitor.DeclareDef | semantics/Visitor.java:36-74 | one definition: the scope list is only extended, the diagnostics only grow, and on success its name is bound in the current scope |
| Semantics.Visitor.VisitDecl | semantics/Visitor.java:34-76 | the scope list is only extended, with bindings added only in the current scope, the diagnostics only grow, and on success every defined name is bound there |
| Semantics.Visitor.VisitAssign | semantics/Visitor.java:214-220 | assignment: the lvalue's diagnostics, `'h'` exactly when it is a constant, then the value's; an exception from the lvalue stops it |
| Semantics.Visitor.VisitInput | semantics/Visitor.java:276-287 | `getint`/`getchar`: the lvalue's diagnostics and `'h'` exactly when it is a constant |
| Semantics.Visitor.VisitJump | semantics/Visitor.java:250-259 | `break`/`continue` record `'m'` at line + 1 exactly outside a loop body |
| Semantics.Visitor.VisitReturn | semantics/Visitor.java:260-275 | a returned expression records `'f'` in a `void` function and is analysed otherwise; a bare `return;` records nothing |
| Semantics.EvalAll | semantics/Visitor.java:301-303 | specifying function without a contract of its own: the `printf` arguments analysed in turn until one throws; `Semantics.Visitor.VisitAll` states its properties |
| Semantics.Visitor.VisitAll | semantics/Visitor.java:301-303 | the `printf` argument loop records every argument's diagnostics in order and stops at the first exception |
| Semantics.Visitor.VisitPrintf | semantics/Visitor.java:288-304 | a placeholder count different from the number of arguments records exactly one `'l'`; otherwise every argument is analysed |
| Semantics.Visitor.VisitExpStmt | semantics/Visitor.java:221-225 | an expression statement records its expression's diagnostics, nothing when empty |
| Semantics.Visitor.VisitStmt | semantics/Visitor.java:213-305 | statement walk: the scope list is only extended (no scope removed or re-parented; among the old scopes only the current one gains bindings, keeping its own), the diagnostics only grow, and on success the current scope is restored |
| Semantics.Visitor.VisitBlockStmt | semantics/Visitor.java:226-230 | a nested block: the scope list is only extended (no scope removed or re-parented; among the old scopes only the current one gains bindings, keeping its own), the diagnostics only grow, and on success the current scope is restored |
| Semantics.Visitor.VisitIf | semantics/Visitor.java:231-237 | `if`: the scope list is only extended (no scope removed or re-parented; among the old scopes only the current one gains bindings, keeping its own), the diagnostics only grow, and on success the current scope is restored |
| Semantics.Visitor.VisitFor | semantics/Visitor.java:238-249 | `for`: the scope list is only extended (no scope removed or re-parented; among the old scopes only the current one gains bindings, keeping its own), the diagnostics only grow, and on success the current scope is restored |
| Semantics.Visitor.VisitBlock | semantics/Visitor.java:198-202 | a block's items: the scope list is only extended (no scope removed or re-parented; among the old scopes only the current one gains bindings, keeping its own), the diagnostics only grow, and on success the current scope is restored |
| Semantics.Visitor.VisitBlockItem | semantics/Visitor.java:204-211 | a declaration or a statement: the scope list is only extended (no scope removed or re-parented; among the old scopes only the current one gains bindings, keeping its own), the diagnostics only grow, and on success the current scope is restored |
| Semantics.Visitor.BindParam | semantics/Visitor.java:165-175 | one parameter is bound if its name is free, otherwise one `'b'` at line + 1 |
| Semantics.Visitor.VisitFuncFParams | semantics/Visitor.java:163-179 | the function scope's bindings become `BindParams` and the diagnostics grow by exactly `ParamDiags` |
| Semantics.Visitor.CheckFinalReturn | semantics/Visitor.java:148-157 | `'g'` at the closing brace's line + 1 exactly when the last item is not a `return` |
| Semantics.Visitor.VisitParamsAndBlock | semantics/Visitor.java:142-147 | inside the function's scope: the scope list is only extended (no scope removed or re-parented; among the old scopes only the current one gains bindings, keeping its own), the diagnostics only grow, and on success the current scope is restored; the current return type is the function's afterwards |
| Semantics.Visitor.VisitFunctionBody | semantics/Visitor.java:142-159 | the same, and the enclosing scope's bindings are untouched |
| Semantics.Visitor.VisitFuncDef | semantics/Visitor.java:118-161 | the enclosing scope gains exactly the function's symbol unless the name was already bound; the diagnostics are the old ones, then one `'b'` at line + 1 exactly when it was bound, then the body's, then `'g'` exactly when a successful non-`void` function lacks its final `return`; on success the current scope is restored and the current return type is the function's |
| Semantics.Visitor.VisitMainFuncDef | semantics/Visitor.java:181-196 | main runs under return type `int`; a missing main throws and records nothing; otherwise the diagnostics are the body's, then `'g'` exactly when a successful body lacks its final `return`; the enclosing scope gains no binding |
| Semantics.Visitor.VisitGlobals | semantics/Visitor.java:25-27 | the scope list is only extended in the current scope, and on success every global name is bound there |
| Semantics.Visitor.VisitFuncDefs | semantics/Visitor.java:28-30 | on success every function name is bound in the starting scope, which is restored |
| Semantics.Visitor.VisitFunctions | semantics/Visitor.java:28-31 | function definitions then main: a missing main throws, and on success every function name is bound in the starting scope |
| Semantics.Visitor.VisitCompUnit | semantics/Visitor.java:24-32 | globals, functions, then main: on success every global and function name is bound in the starting scope, and a missing main always ends in an exception |
| IrGeneration.ToI8 | llvm/IRGenerator.java:687-694 | `convertToI8` succeeds exactly on an `i32` value and gives a fresh `i8` register, taking one register |
| IrGeneration.ToI32 | llvm/IRGenerator.java:678-685 | `convertToI32` succeeds exactly on an `i8` value and gives a fresh `i32` register, taking one register |
| IrGeneration.ElementAddress | llvm/IRGenerator.java:696-733 | `getElementPtr` succeeds exactly for an array; it takes two registers for an array parameter (the pointer is loaded first) and one otherwise, and gives an element pointer in the last |
| IrGeneration.ElementAddressCode | llvm/IRGenerator.java:696-733 | an array parameter (length 0) is loaded through `T*` and indexed once by the index; a declared array is indexed by `0` and then the index, from its own IR name |
| IrGeneration.LoadScalar | llvm/IRGenerator.java:529-573 | loading a scalar gives an `i32` in the last register taken: one register for an `int`, two for a `char` (load and `sext`) |
| IrGeneration.ExpCode | llvm/IRGenerator.java:430-476 | specifying function without a contract of its own: both operands in order, then one arithmetic instruction into the next register (none for comparisons and logic); a missing right operand throws; `IrGeneration.ExpRegisters` and `IrGeneration.IRGenerator.GenExp` state its properties |
| IrGeneration.OperandCode | llvm/IRGenerator.java:430-476 | specifying function without a contract of its own: a parenthesised sub-expression or a unary expression; `IrGeneration.OperandRegisters` states its properties |
| IrGeneration.UnaryCode | llvm/IRGenerator.java:478-507 | specifying function without a contract of its own: a primary, a call, or a prefix `+` (the operand), `-` (`sub 0`) or `!` (an empty value); `IrGeneration.UnaryRegisters` states its properties |
| IrGeneration.PrimaryCode | llvm/IRGenerator.java:509-527 | specifying function without a contract of its own: a parenthesised expression, an lvalue read, a character's code or a number's text; `IrGeneration.PrimaryRegisters` states its properties |
| IrGeneration.LvalCode | llvm/IRGenerator.java:529-573 | specifying function without a contract of its own: a scalar is loaded, a bare array name is the address of element 0, an indexed element is addressed and then loaded; `IrGeneration.LvalRegisters` states its properties |
| IrGeneration.CallCode | llvm/IRGenerator.java:575-629 | specifying function without a contract of its own: the arguments, then the call, sign-extended for a `char` function; `IrGeneration.CallRegisters` and `IrGeneration.InvocationRegisters` state its properties |
| IrGeneration.ArgsCode | llvm/IRGenerator.java:579-587 | specifying function without a contract of its own: each argument's code, truncated for a `char` scalar parameter, in order; an argument beyond the parameter types throws; `IrGeneration.ArgsRegisters` states its properties |
| IrGeneration.Range | llvm/IRGenerator.java:43-46 | the registers `lo` to `hi - 1`, in order |
| IrGeneration.AscendingFull | llvm/IRGenerator.java:43-46 | increasing registers between `lo` and `hi` that are as many as the gap are every one of them |
| IrGeneration.JoinFresh | llvm/IRGenerator.java:43-46 | two pieces of code with fresh increasing registers, one after the other, form one such piece |
| IrGeneration.JoinThree | llvm/IRGenerator.java:43-46 | the same for three pieces |
| IrGeneration.LoadScalarRegisters | llvm/IRGenerator.java:529-573 | a scalar load defines exactly the registers it took, in order, and only computes |
| IrGeneration.ElementAddressRegisters | llvm/IRGenerator.java:696-733 | the same for an element address |
| IrGeneration.CastRegisters | llvm/IRGenerator.java:582-585 | the same for the cast of one call argument |
| IrGeneration.ExpRegisters | llvm/IRGenerator.java:430-476 | an expression's code only computes (no alloca, store or return), defines fresh increasing registers, exactly the ones it took when every operator is `+ - * / %`, and its value is an `i32`, an element pointer or a `void` call's |
| IrGeneration.CombineRegisters | llvm/IRGenerator.java:430-476 | a binary node keeps those facts when its operands do |
| IrGeneration.OperandRegisters | llvm/IRGenerator.java:430-476 | the same facts for an operand |
| IrGeneration.UnaryRegisters | llvm/IRGenerator.java:478-507 | the same facts for a unary expression |
| IrGeneration.PrefixedRegisters | llvm/IRGenerator.java:478-507 | a prefix `+`, `-` or `!` keeps them |
| IrGeneration.PrimaryRegisters | llvm/IRGenerator.java:509-527 | the same facts for a primary expression |
| IrGeneration.LvalRegisters | llvm/IRGenerator.java:529-573 | the same facts for an lvalue read |
| IrGeneration.CallRegisters | llvm/IRGenerator.java:575-629 | the same facts for a call |
| IrGeneration.InvocationRegisters | llvm/IRGenerator.java:588-628 | the call instruction itself keeps them and gives an `i32` or the `void` value |
| IrGeneration.ArgsRegisters | llvm/IRGenerator.java:579-587 | the argument code keeps them |
| IrGeneration.Target | llvm/IRGenerator.java:271-291 | specifying function without a contract of its own: the address an assignment stores to; `IrGeneration.TargetType` states its properties |
| IrGeneration.StoreCode | llvm/IRGenerator.java:277-298 | specifying function without a contract of its own: the store of a value into an address; `IrGeneration.StoreNarrowsChars` states its properties |
| IrGeneration.AssignCode | llvm/IRGenerator.java:270-300 | specifying function without a contract of its own: the target's code, then the value's, then the store; `IrGeneration.AssignSplit` and `IrGeneration.IRGenerator.GenAssign` state its properties |
| IrGeneration.ReadCode | llvm/IRGenerator.java:325-394 | specifying function without a contract of its own: the target's code, then the `getint` or `getchar` call and its store; `IrGeneration.ReadSplit` and `IrGeneration.IRGenerator.GenRead` state its properties |
| IrGeneration.ReturnCode | llvm/IRGenerator.java:313-324 | specifying function without a contract of its own: `ret void`, or the value's code then its `ret`, truncated to `i8` first in a `char` function; `IrGeneration.IRGenerator.GenReturn` states its properties |
| IrGeneration.Output | llvm/IRGenerator.java:735-747 | specifying function without a contract of its own: the `putch` or `putint` call of one value |
| IrGeneration.PlaceholderCode | llvm/IRGenerator.java:400-410 | specifying function without a contract of its own: the argument's code, then `putch` for `%c` or `putint` for `%d` |
| IrGeneration.PrintfCode | llvm/IRGenerator.java:395-423 | specifying function without a contract of its own: the format from position `i`: `%c` and `%d` print the next argument (too few arguments throw), a backslash-`n` prints 10 and any other character prints its code by `putch`; `IrGeneration.PrintfUsesPlaceholders` and `IrGeneration.PrintfUsesAllArguments` state its properties |
| IrGeneration.PrintfStmtCode | llvm/IRGenerator.java:395-423 | specifying function without a contract of its own: `PrintfCode` over the format without its quotes; `IrGeneration.PrintfUsesAllArguments` and `IrGeneration.IRGenerator.GenPrintf` state its properties |
| IrGeneration.SimpleStmtCode | llvm/IRGenerator.java:269-428 | specifying function without a contract of its own: the code of an assignment, an expression statement, a read, a `return` or a `printf`, while `if`, `for`, `break` and `continue` throw; `IrGeneration.IRGenerator.GenSimpleStmt` and `IrGeneration.IRGenerator.GenStmt` state its properties |
| IrGeneration.TargetType | llvm/IRGenerator.java:271-291 | an assignment target is found only for a variable, and its address has the variable's pointer type |
| IrGeneration.StoreNarrowsChars | llvm/IRGenerator.java:277-298 | a store into a `char` needs an `i32` value, which is truncated to a fresh `i8` and stored; into an `int` the value is stored as it is; both at the target address |
| IrGeneration.PrintfUsesPlaceholders | llvm/IRGenerator.java:395-423 | `printf` code throws when the format asks for more arguments than remain, and otherwise consumes exactly one argument per placeholder |
| IrGeneration.PlaceholdersDropLast | llvm/IRGenerator.java:395-423 | a closing character that is not `c` or `d` adds no placeholder |
| IrGeneration.PrintfUsesAllArguments | llvm/IRGenerator.java:395-423 | for a format the analyser accepted, successful `printf` code consumes every argument |
| IrGeneration.Items | llvm/IRGenerator.java:107-116 | one `tag value` text per recorded value, in order |
| IrGeneration.ElementsText | llvm/IRGenerator.java:107-116 | specifying function without a contract of its own: what the global initialiser loop builds; `IrGeneration.ElementsTextList` states its properties |
| IrGeneration.ElementsTextList | llvm/IRGenerator.java:107-116 | the first `i` elements of a list of length `n` are exactly the first `i` values, each after its type tag, separated by commas, with a comma still to come when more follow |
| IrGeneration.GlobalCode | llvm/IRGenerator.java:88-128 | a global definition succeeds exactly when its recorded values cover its length (one value for a scalar), and defines a global of the symbol's name, const-ness and type |
| IrGeneration.GlobalCodeInit | llvm/IRGenerator.java:88-128 | a global array of length `n` is initialised with exactly its first `n` recorded values, in order, between brackets; a scalar with its first recorded value |
| IrGeneration.ElementStoredOnce | llvm/IRGenerator.java:166-183 | initialising one element of a local array ends in its single store, at the element's address |
| IrGeneration.ElementInitCode | llvm/IRGenerator.java:166-183 | specifying function without a contract of its own: element `i` is stored from its folded constant when it has one, else from initialiser expression `i`, truncated for a `char`; too few recorded values throw; `IrGeneration.ElementStoredOnce` states its properties |
| IrGeneration.ElementStored | llvm/IRGenerator.java:164-184 | the same with the address computed by `getElementPtr` |
| IrGeneration.ArrayStoredOnce | llvm/IRGenerator.java:163-185 | the element loop stores once per remaining element |
| IrGeneration.LocalInitialisedOnce | llvm/IRGenerator.java:131-187 | a local definition starts with its `alloca` and stores once per element (once for a scalar) |
| IrGeneration.LocalDefCode | llvm/IRGenerator.java:131-187 | specifying function without a contract of its own: the `alloca`, then the initial value's stores; `IrGeneration.LocalInitialisedOnce` and `IrGeneration.IRGenerator.GenLocalDef` state its properties |
| IrGeneration.StoresAppend | llvm/IRGenerator.java:131-187 | the stores of two pieces of code add up |
| IrGeneration.ComputingStoresNothing | llvm/IRGenerator.java:430-476 | expression code stores nothing |
| IrGeneration.Signature | llvm/IRGenerator.java:216-228 | the parameter list of a definition: parameter `j` has its type text, register `%j`, and a comma after all but the last |
| IrGeneration.Spill | llvm/IRGenerator.java:232-247 | specifying function without a contract of its own: one `alloca` and one store per parameter, in order; `IrGeneration.SpillSlots` and `IrGeneration.SpillExact` state its properties |
| IrGeneration.SpillPairSlot | llvm/IRGenerator.java:232-247 | spilling one parameter defines exactly its slot register and stores once |
| IrGeneration.SpillDefs | llvm/IRGenerator.java:232-247 | spilling the first `i` parameters defines exactly the registers `n` to `n + i - 1`, in order |
| IrGeneration.SpillStores | llvm/IRGenerator.java:232-247 | and stores once per parameter |
| IrGeneration.SpillSlots | llvm/IRGenerator.java:232-247 | both together |
| IrGeneration.ParamsRunStops | llvm/IRGenerator.java:217-227 | once the parameter loop throws, later steps keep the exception |
| IrGeneration.SpillRunStops | llvm/IRGenerator.java:232-247 | once the spill loop throws, later steps keep the exception |
| IrGeneration.SpillRunFails | llvm/IRGenerator.java:232-247 | the spill loop throws index-out-of-bounds for a parameter without a type and a null pointer for one whose name is not bound |
| IrGeneration.RenamedKeepsBound | llvm/IRGenerator.java:65-67 | renaming a symbol changes no name's being bound |
| IrGeneration.ParamsRunKeepsBound | llvm/IRGenerator.java:217-227 | the parameter loop changes no name's being bound |
| IrGeneration.SpillRunKeepsBound | llvm/IRGenerator.java:232-247 | the spill loop changes no name's being bound |
| IrGeneration.ParamsRunOk | llvm/IRGenerator.java:217-227 | the parameter loop succeeds exactly when every parameter has a type and a bound name, and then yields `Signature` |
| IrGeneration.SpillRunOk | llvm/IRGenerator.java:232-247 | the spill loop succeeds exactly when every parameter has a type and a bound name |
| IrGeneration.RenameNext | llvm/IRGenerator.java:219-221 | with distinct names, renaming the next parameter extends the renaming of the earlier ones |
| IrGeneration.RenamedAll | llvm/IRGenerator.java:217-227 | after the whole loop every parameter is named by its register |
| IrGeneration.ParamsNameRegisters | llvm/IRGenerator.java:217-227 | with distinct names, the parameter loop names parameter `j` `%j` |
| IrGeneration.ParamsRunNext | llvm/IRGenerator.java:217-227 | one more step of the parameter loop renames the parameter and adds its entry |
| IrGeneration.ParamsRunFails | llvm/IRGenerator.java:217-227 | the parameter loop throws a null pointer for an unbound name and index-out-of-bounds for a missing type |
| IrGeneration.SpillRunNext | llvm/IRGenerator.java:232-247 | one more step of the spill loop copies the parameter into its slot and renames it |
| IrGeneration.SpillAdvance | llvm/IRGenerator.java:232-247 | the printed code of one spill step is the slot copy |
| IrGeneration.SpillExact | llvm/IRGenerator.java:232-247 | with distinct, register-named parameters the spill loop succeeds, prints exactly `Spill` and renames each parameter to its slot |
| IrGeneration.PrologueSplit | llvm/IRGenerator.java:199-247 | a prologue is the definition line followed by the spill |
| IrGeneration.PrologueCode | llvm/IRGenerator.java:199-247 | specifying function without a contract of its own: the `define` line, then the spill; `IrGeneration.PrologueExact` states its properties |
| IrGeneration.PrologueExact | llvm/IRGenerator.java:199-247 | a prologue succeeds exactly when every parameter has a type and a bound name; it starts with the `define` line and, with distinct names, is that line and `Spill`, each parameter then named by its slot |
| IrGeneration.HeaderKept | llvm/IRGenerator.java:199-256 | whatever is printed after a successful prologue keeps the function's header |
| IrGeneration.IRGenerator.constructor | llvm/IRGenerator.java:48-50 | a generator over the given table, with nothing printed and register 0 |
| IrGeneration.IRGenerator.ResetReg | llvm/IRGenerator.java:39-41 | the register counter is 0 |
| IrGeneration.IRGenerator.AllocReg | llvm/IRGenerator.java:43-46 | returns the counter and increments it |
| IrGeneration.IRGenerator.ConvertToI8 | llvm/IRGenerator.java:687-694 | prints exactly `ToI8`'s code and returns its value or exception |
| IrGeneration.IRGenerator.ConvertToI32 | llvm/IRGenerator.java:678-685 | prints exactly `ToI32`'s code |
| IrGeneration.IRGenerator.GetElementPtr | llvm/IRGenerator.java:696-733 | prints exactly `ElementAddress`'s code |
| IrGeneration.IRGenerator.LoadValue | llvm/IRGenerator.java:529-573 | prints exactly `LoadScalar`'s code |
| IrGeneration.IRGenerator.GenExp | llvm/IRGenerator.java:430-476 | prints exactly `ExpCode`'s code and leaves the counter after it |
| IrGeneration.IRGenerator.GenOperand | llvm/IRGenerator.java:430-476 | prints exactly `OperandCode`'s code |
| IrGeneration.IRGenerator.GenUnary | llvm/IRGenerator.java:478-507 | prints exactly `UnaryCode`'s code |
| IrGeneration.IRGenerator.GenPrimary | llvm/IRGenerator.java:509-527 | prints exactly `PrimaryCode`'s code |
| IrGeneration.IRGenerator.GenLval | llvm/IRGenerator.java:529-573 | prints exactly `LvalCode`'s code |
| IrGeneration.IRGenerator.GenCall | llvm/IRGenerator.java:575-629 | prints exactly `CallCode`'s code |
| IrGeneration.IRGenerator.GenArgs | llvm/IRGenerator.java:579-587 | the argument loop prints exactly `ArgsCode`'s code |
| IrGeneration.IRGenerator.CastArgument | llvm/IRGenerator.java:582-585 | prints exactly `ArgumentCast`'s code |
| IrGeneration.IRGenerator.EmitCall | llvm/IRGenerator.java:588-628 | prints exactly the call of `Invocation` |
| IrGeneration.IRGenerator.GenTarget | llvm/IRGenerator.java:271-291 | prints exactly `Target`'s code |
| IrGeneration.IRGenerator.GenStore | llvm/IRGenerator.java:277-298 | prints exactly `StoreCode`'s code |
| IrGeneration.IRGenerator.GenAssign | llvm/IRGenerator.java:270-300 | prints exactly `AssignCode`'s code |
| IrGeneration.IRGenerator.GenAssigned | llvm/IRGenerator.java:292-298 | prints exactly `AssignedCode`'s code |
| IrGeneration.IRGenerator.GenRead | llvm/IRGenerator.java:325-394 | prints exactly `ReadCode`'s code |
| IrGeneration.IRGenerator.GenReadInto | llvm/IRGenerator.java:325-394 | prints exactly `ReadIntoCode`'s code |
| IrGeneration.IRGenerator.GenReturn | llvm/IRGenerator.java:313-324 | prints exactly `ReturnCode`'s code |
| IrGeneration.IRGenerator.OutputAChar | llvm/IRGenerator.java:735-740 | prints exactly the `putch` call of `Output` |
| IrGeneration.IRGenerator.OutputANumber | llvm/IRGenerator.java:742-747 | prints exactly the `putint` call of `Output` |
| IrGeneration.IRGenerator.GenPlaceholder | llvm/IRGenerator.java:400-410 | prints exactly `PlaceholderCode`'s code |
| IrGeneration.IRGenerator.GenPrintf | llvm/IRGenerator.java:395-423 | the format loop prints exactly `PrintfStmtCode`'s code |
| IrGeneration.IRGenerator.GenSimpleStmt | llvm/IRGenerator.java:269-428 | prints exactly `SimpleStmtCode`'s code |
| IrGeneration.IRGenerator.GenElementInit | llvm/IRGenerator.java:166-183 | prints exactly `ElementInitCode`'s code |
| IrGeneration.IRGenerator.GenElement | llvm/IRGenerator.java:164-184 | prints exactly `ElementCode`'s code |
| IrGeneration.IRGenerator.GenArrayInit | llvm/IRGenerator.java:163-185 | the element loop prints exactly `ArrayInitCode`'s code |
| IrGeneration.IRGenerator.GenLocalInit | llvm/IRGenerator.java:142-185 | prints exactly `LocalInitCode`'s code |
| IrGeneration.IRGenerator.GenLocalDef | llvm/IRGenerator.java:131-187 | a local definition finds its variable (or throws and changes nothing), names it by its `alloca` register, touches no other name, and prints exactly `LocalDefCode` |
| IrGeneration.IRGenerator.GenElements | llvm/IRGenerator.java:107-116 | the global initialiser loop gives `ElementsText` (so, by `ElementsTextList`, exactly the first `n` values in order), and throws index-out-of-bounds when the length exceeds the recorded values |
| IrGeneration.IRGenerator.GenGlobalDef | llvm/IRGenerator.java:87-130 | a global definition finds its variable (or throws and changes nothing), names it `@name`, touches no other name, and prints exactly `GlobalCode` |
| IrGeneration.IRGenerator.GenDecl | llvm/IRGenerator.java:86-188 | on success the output only grew and every defined name has an IR name |
| IrGeneration.IRGenerator.PushScope | llvm/IRGenerator.java:52-55 | outside any scope it throws; otherwise it moves to the next-numbered scope when that is a child of the current one, stays otherwise, and advances the counter; a scope it enters has the old current scope as its parent |
| IrGeneration.IRGenerator.PopScope | llvm/IRGenerator.java:57-59 | outside any scope it throws; otherwise it moves to the parent, or to none above the root |
| IrGeneration.RootPushStays | llvm/IRGenerator.java:69-84 | the root scope 1 is never its own child, so the push of `codeGen(CompUnit)` stays in the root scope and the first function's scope is numbered 2 |
| IrGeneration.IRGenerator.GenStmt | llvm/IRGenerator.java:269-428 | a statement other than a block changes no scope and prints exactly `SimpleStmtCode`; any statement only adds output on success |
| IrGeneration.IRGenerator.GenBlock | llvm/IRGenerator.java:258-267 | the items in order; on success the output only grew |
| IrGeneration.IRGenerator.ParamsStep | llvm/IRGenerator.java:217-227 | one step of the parameter loop follows `ParamsRun` |
| IrGeneration.IRGenerator.GenParams | llvm/IRGenerator.java:217-227 | the parameter loop returns `ParamsRun`'s list, renames as it does, and leaves the counter after the parameters |
| IrGeneration.IRGenerator.SpillOne | llvm/IRGenerator.java:232-247 | one parameter's `alloca` and store, then its renaming to the slot; a null pointer for an unbound name |
| IrGeneration.IRGenerator.SpillStep | llvm/IRGenerator.java:232-247 | one step of the spill loop follows `SpillRun` |
| IrGeneration.IRGenerator.GenSpill | llvm/IRGenerator.java:232-247 | the spill loop prints exactly `SpillRun`'s code and renames as it does |
| IrGeneration.IRGenerator.GenPrologue | llvm/IRGenerator.java:199-247 | the definition line and the spill print exactly `PrologueCode` |
| IrGeneration.IRGenerator.GenFuncDef | llvm/IRGenerator.java:190-256 | a function whose symbol is missing throws; on success the output gained the function's header and ends with its closing brace |
| IrGeneration.IRGenerator.GenMain | llvm/IRGenerator.java:190-256 | on success `define i32 @main()` was printed first and the output ends with a closing brace |
| IrGeneration.IRGenerator.GenCompUnit | llvm/IRGenerator.java:69-84 | on success the library declarations come first and the output ends with a closing brace |
| IrGeneration.ParamsRun | llvm/IRGenerator.java:217-227 | the renamings of the parameter loop keep the scope tree's shape: as many scopes, every parent older than its child |
| IrGeneration.SpillRun | llvm/IRGenerator.java:232-247 | the renamings of the spill loop keep the scope tree's shape |
| IrGeneration.IRGenerator.Print | llvm/IRGenerator.java:749-755 | printing appends exactly the one instruction to the output |


## Left out

- Input and output: reading the source file, writing the token, syntax-tree, diagnostics and IR files, and the debug writers (`Compiler.java` and the debug flag of `Lexer.nextToken`) are not modelled. The lexer starts from the program's lines, and the IR is a list of `Instr` records with `Render` giving each one's text. Indentation is not modelled, and neither are the comments the generator prints after `declare` lines.
- Error-message texts: the parser's `error(...)` messages and the analyser's internal messages are not reproduced. Only the kind of the exception is kept.
- `Lexer.Lexer.constructor` takes the finished token list. The tokenizing loop of the Java constructor is `Lexer.Tokenize`, proved to compute `Lexer.Lex`.
- Parser.Parser.ParseStmt: its contract, and the contracts of the other statement, declaration and expression parsers, promise that the cursor moves forward, that the parse makes progress on success and that the diagnostics list only grows. They do not say which nodes or which diagnostics a parse produces. Only `Parser.Parser.SkipSign` and `Parser.Parser.Expect` state exactly when an `i`, `j` or `k` diagnostic is recorded.
- Parser.Parser.ParseExp: `parseConstExp` differs from `parseExp` only in debug output, so both are `ParseExp`. A call's arguments are a sequence, empty when the source has no `FuncRParams` node.
- Semantics.Visitor.VisitStmt: its contract, and those of VisitBlock, VisitBlockItem, VisitBlockStmt, VisitIf, VisitFor, VisitParamsAndBlock and VisitFunctionBody, state frame facts only. The scope list is only extended, the current scope is restored and the diagnostics list only grows. Which diagnostics a nested statement records is stated by the leaf methods (`VisitAssign`, `VisitInput`, `VisitJump`, `VisitReturn`, `VisitPrintf`, `VisitExpStmt`, `Declare`, `VisitFuncFParams`, `CheckFinalReturn`) and not re-stated by the composite ones.
- Semantics.Visitor.VisitFuncDef: the source inserts the function symbol first and later appends the parameters to the same `FunctionType` object through an alias. Nothing reads the table in between, so the model builds the complete type first and inserts it once. The final-return check (`g`) is made after leaving the function's scope rather than before it; it only touches the diagnostics list, and the contract states it, together with the `b` for a taken name. The body's own diagnostics are a ghost out-parameter that the contract places between them, without stating their content.
- Semantics.Visitor.VisitDecl: its contract states the frame only: the scope list is only extended, bindings are added only in the current scope, the diagnostics only grow, and on success every defined name is bound. It is not proved to produce `Semantics.DeclEffect` as a whole, because that proof exceeds the resource limit. Each step is stated exactly by `Semantics.Visitor.BuildSymbol` and `Semantics.Visitor.Declare`, and `Semantics.DeclEffectExtends` and `Semantics.SingleDeclaration` state what a whole declaration does.
- Semantics.Visitor.DeclareDef: frame facts only, for the same reason; its two steps are stated exactly by `BuildSymbol` and `Declare`.
- Semantics.Visitor.VisitGlobals: frame facts only (scopes extended, diagnostics grown, every global name bound on success). It does not state which diagnostics the declarations record.
- Semantics.Visitor.VisitFuncDefs: frame facts only (scopes extended, diagnostics grown, every function name bound and the scope restored on success). Each definition's diagnostics are stated by `Semantics.Visitor.VisitFuncDef`, but their concatenation over the list is not.
- Semantics.Visitor.VisitFunctions: frame facts only, plus the exception for a missing `main`.
- Semantics.Visitor.VisitCompUnit: frame facts only, plus the exception for a missing `main`. The whole program's diagnostics are not stated as one function of the tree.
- Lexer.CharLiteral: Dafny's `char` is a Unicode scalar value, while Java's `String.charAt` reads UTF-16 code units. For a character outside the Basic Multilingual Plane, such as an emoji between single quotes, the Java lexer sees two surrogate units: it makes no token, and then throws `UnknownError` at the second unit. The model reads one character and makes a `CHRCON` token. Input made only of characters below U+10000 behaves the same in both.
- Utilities.GetASCII: for the same reason, a literal holding a character beyond 16 bits has length 4 in Java, so `getASCII` prints its message and returns `null`, while the model returns that character's code.
- Utilities.QuotedCharCode: for the same reason, it states the code of a one-character literal for a Dafny character, which the Java code only agrees with below U+10000.
- IrGeneration.IRGenerator.GenBlock: the generator replays the analyser's scopes by number. `codeGen(CompUnit)` sets the next scope to 1 and pushes from the root scope 1 (llvm/IRGenerator.java:75-76), and `IrGeneration.RootPushStays` proves that this push stays in the root, so the first function's scope is number 2. `IrGeneration.IRGenerator.PushScope` and `IrGeneration.IRGenerator.PopScope` are stated exactly, and a scope entered by a push is a child of the one left. It is not proved that GenBlock, GenFuncDef and GenMain come back to the scope they started in, or that the push numbering meets the analyser's scopes in the same order. That would need the shape of the scope tree to be carried through `GenDecl`'s renamings, together with a count of the pushes that did not enter a child.
- Semantics.Visitor.VisitMainFuncDef: the body's own diagnostics are a ghost out-parameter, placed before the `g` but without their content stated.
- Semantics.EvalExp: expression analysis only reads the table, so it is modelled as pure functions returning the diagnostics to append, rather than as methods.
- IrGeneration.IRGenerator.GenStmt: its contract, and those of GenBlock, GenDecl, GenFuncDef, GenMain and GenCompUnit, state the shape of the output (what it starts and ends with, that it only grows) and the frame. They do not state the output as one function of the whole tree. Every leaf statement, expression, declaration and prologue is stated exactly.
- IrGeneration.IRGenerator: after an exception, the lines the Java generator has already written to its file are not described. Only the exception is.
- IrGeneration.IRGenerator.AllocReg: `virtualRegIndex` is a Java `int`, but the model's counter is unbounded. A function would need over 2^31 registers to tell the two apart.
- IrGeneration.IRGenerator.EmitCall: the checks `type == Type.i32()` and `type == Type.i8()` in the `void`-call branch (llvm/IRGenerator.java:593-598) compare a value's type against a freshly built object by reference, so they are always false. The model therefore prints every argument, as the code does.
- Symbol.java has no `llvmIRSymbol` field, although the generator reads and writes one on every symbol. The model adds `irName: Option<string>` to `Symbol`, and `SymbolTables.SymbolTable.SetIrName` writes it (see `SymbolTables.Rebind`).
- Runtime behaviour of the generated program (`getint`, `getchar`, `putint`, `putch`) is not modelled: those are calls into the SysY runtime library.
- Floating point, concurrency and reflection do not occur in the core.
