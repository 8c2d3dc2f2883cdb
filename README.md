# Lox front end and tree-walking evaluator in Dafny

This project models the core of a small Java implementation of the Lox
language (`learn.craftinginterpreters.lox`):

- the **lexer** (`Lexer`, `Token`): it turns the source text into tokens and
  reports errors, such as an unterminated string or block comment and
  unexpected characters;
- the **AST** (`Expr`, `Stmt` and their node classes);
- the **recursive-descent parser** (`Parser`). It has one method per
  precedence tier: comma, assignment, ternary, equality, comparison, term,
  factor, unary and primary. It reports errors through `Lox.error`, throws
  `ParserError`, and recovers with `synchronize()`;
- the **environment** (`Environment`): a chain of scopes, each with a parent
  link;
- the **interpreter** (`Interpreter`). It evaluates expressions, executes
  `print`, `var`, expression and block statements, and raises `RuntimeError`;
- the **display visitor** (`SimpleDisplayVisitor`): it renders an expression
  as text.

Java's `null` is modelled explicitly:

- a child expression that may be `null` is an `Option<Expr>`;
- the `null` value is `Nil`;
- a null-dereference exception is a separate outcome (`Crash`), distinct from a
  thrown `RuntimeError` (`Thrown`).

Doubles are an abstract `Number` type. Parsing, printing, arithmetic and
`compareTo` on numbers are functions supplied in a `HostNumbers` record.

The parts that change state in place are Dafny classes with `modifies`
clauses:

- the lexer's cursor and token list;
- the parser's cursor and error list;
- the environment's scope map;
- the interpreter's current environment and output.

Each method is proved against a pure specification function:

- `Scanner.LexFrom` / `Scanner.ScanOne` for the lexer;
- the functions of `Descent` for the parser: one function per parser
  method (`Tier` for the expression tiers, `StatementRule`,
  `VarDeclarationRule`, and so on). Each method returns, throws, moves the
  cursor and adds reports exactly as its function says;
- `Environments.Lookup` / `Environments.AssignNearest` /
  `Environments.Declare` for the environment;
- `Interpreting.Exec` / `Interpreting.ExecAll` for the interpreter.

The lemmas then state what those functions guarantee. For the parser,
`ParseSoundness` proves that whatever a rule returns is a tree of its
precedence tier spelled by exactly the tokens it consumed (`Grammar.Spans`,
`Grammar.InTier`), and that a throw was reported. `ParseCompleteness` proves
the converse: every such tree without `null` is returned, and only one
reading exists (`ReadingIsUnique`).

Modules:

| file | module | models |
|---|---|---|
| `wrappers.dfy` | `Wrappers` | `Option` |
| `values.dfy` | `Values` | runtime values, `toString()` |
| `tokens.dfy` | `Tokens` | `Type`, `Token`, the keyword table |
| `ast.dfy` | `Ast` | `Expr`, `Stmt` and their node classes |
| `runtime_error.dfy` | `RuntimeErrors` | `RuntimeError` |
| `lexer.dfy` | `Scanner` | `Lexer` |
| `lexer_facts.dfy` | `ScannerFacts` | properties of the token stream |
| `grammar.dfy` | `Grammar` | the tree shapes the parser produces |
| `descent.dfy` | `Descent` | `Parser`'s rules as functions on the token list |
| `parse_soundness.dfy` | `ParseSoundness` | what each rule's result guarantees |
| `parse_completeness.dfy` | `ParseCompleteness` | which trees each rule returns |
| `parser.dfy` | `Parsing` | `Parser` |
| `parser_facts.dfy` | `ParserFacts` | precedence and associativity |
| `environment.dfy` | `Environments` | `Environment` |
| `interpreter.dfy` | `Interpreting` | `Interpreter` |
| `display.dfy` | `Display` | `SimpleDisplayVisitor` |

Source paths below are relative to the repository's source root.
`lox/` stands for `src/java/learn/craftinginterpreters/lox/` in the prose;
the table uses the full path.

Where the code departs from the language's usual design, the model follows
the code. It shows the following:

- `visit(BlockStmt)` does not restore the enclosing environment when a
  statement in the block throws (`BlockLeaksScopeOnError`).
- A block cannot redeclare a name that an enclosing scope declares, because
  `hasVariable` searches the whole chain (`ShadowingThrows`).
- `Environment.assign` throws "Undeclared variable" after every assignment,
  successful or not (`Environments.Environment.Assign`).
- `evaluate` rejects unary and assignment expressions with
  "Unhanded expression type", so `print -1;` throws
  (`UnaryStatementThrows`).
- `Assignment.accept` returns `null` without visiting, so an assignment
  nested in a larger expression evaluates to `null`.

## Model

| member | source | states |
|---|---|---|
| Tokens.Match | src/java/learn/craftinginterpreters/lox/lexer/Token.java:17-24 | `match(types...)` is true exactly when the token's type is among the given types, and false for an empty list |
| Tokens.KeywordTableInjective | src/java/learn/craftinginterpreters/lox/lexer/Lexer.java:14-32 | every entry of the keyword table maps to a keyword type, and no two words map to the same type |
| Tokens.KeywordTableOnto | src/java/learn/craftinginterpreters/lox/lexer/Lexer.java:14-32 | every keyword type is produced by some word of the `KEYWORDS` table (`Keywords`), so with `KeywordTableInjective` the table is a one-to-one correspondence between the sixteen words and the keyword types |
| Values.Text | src/java/learn/craftinginterpreters/lox/interpreter/Interpreter.java:153 | `toString()` of a value fails (a null-dereference exception) exactly on `null`, and a string's text is the string itself |
| Scanner.LineAt | src/java/learn/craftinginterpreters/lox/lexer/Lexer.java:135-143 | the line counter starts at 1 and never drops below it |
| Scanner.LineAtCountsNewlines | src/java/learn/craftinginterpreters/lox/lexer/Lexer.java:135-143 | the line after consuming a prefix is 1 plus the number of newlines in it |
| Scanner.EofToken | src/java/learn/craftinginterpreters/lox/lexer/Lexer.java:60 | the token appended at the end is EOF with an empty lexeme and no literal, on line 1 plus the number of newlines in the whole source |
| Scanner.IsDigit | src/java/learn/craftinginterpreters/lox/lexer/Lexer.java:239-241 | a digit is exactly one of the ten characters `0` to `9` |
| Scanner.IsAlpha | src/java/learn/craftinginterpreters/lox/lexer/Lexer.java:260-262 | no character that may start a word is a digit |
| Scanner.IsAlphaNumeric | src/java/learn/craftinginterpreters/lox/lexer/Lexer.java:264-266 | every letter, `_` and digit may continue a word |
| Scanner.CharacterClasses | src/java/learn/craftinginterpreters/lox/lexer/Lexer.java:260-266 | a word starts with exactly one of the 52 ASCII letters or `_`, and continues with those or the ten digits |
| Scanner.RunEnd | src/java/learn/craftinginterpreters/lox/lexer/Lexer.java:224-227 | a `while (class(peek())) advance()` loop stops within the source, never before where it started |
| Scanner.NumberEnd | src/java/learn/craftinginterpreters/lox/lexer/Lexer.java:156-168 | a number lexeme starting at a digit is non-empty and ends within the source |
| Scanner.BlockCommentFrom | src/java/learn/craftinginterpreters/lox/lexer/Lexer.java:173-204 | scanning a block comment ends within the source, never before where it resumed; where it closes is stated by `ScannerFacts.BlockCommentClosesAtFirst` and `ScannerFacts.UnterminatedBlockComment` |
| Scanner.ScanOne | src/java/learn/craftinginterpreters/lox/lexer/Lexer.java:64-154 | one call of `scanNext` always consumes at least one character and stays within the source, so the scan terminates |
| Scanner.SlashLexeme | src/java/learn/craftinginterpreters/lox/lexer/Lexer.java:117-129 | the `/` case consumes at least the slash and stays within the source |
| Scanner.StringLexeme | src/java/learn/craftinginterpreters/lox/lexer/Lexer.java:206-222 | a string literal consumes at least the opening quote and stays within the source |
| Scanner.OtherLexeme | src/java/learn/craftinginterpreters/lox/lexer/Lexer.java:145-152 | the default case (number, word or unexpected character) consumes at least one character |
| Scanner.Reports | src/java/learn/craftinginterpreters/lox/Lox.java:105-107 | each message of a lexeme becomes exactly one reported error on the current line |
| Scanner.WordKind | src/java/learn/craftinginterpreters/lox/lexer/Lexer.java:229-236 | a word is its keyword type exactly when it is in the keyword table, and IDENTIFIER otherwise |
| Scanner.SingleCharKind | src/java/learn/craftinginterpreters/lox/lexer/Lexer.java:67-102 | exactly the twelve characters `( ) { } , . - + ; : * ?` are one-character tokens without lookahead |
| Scanner.OperatorKind | src/java/learn/craftinginterpreters/lox/lexer/Lexer.java:104-115 | exactly `!`, `=`, `<` and `>` look at the next character, and take their two-character type exactly when `=` follows |
| Scanner.TokenOf | src/java/learn/craftinginterpreters/lox/lexer/Lexer.java:286-293 | a lexeme adds one token, or none when it has no type; the token has that type, the text from `start` to `current` and the current line |
| Scanner.LexFrom | src/java/learn/craftinginterpreters/lox/lexer/Lexer.java:55-59 | the scan loop from offset `i` adds at most one token per remaining character |
| Scanner.Lexer.constructor | src/java/learn/craftinginterpreters/lox/lexer/Lexer.java:47-53 | a new lexer holds the source, no tokens, and sits at offset 0 on line 1 |
| Scanner.Lexer.Scan | src/java/learn/craftinginterpreters/lox/lexer/Lexer.java:55-62 | `scan()` consumes the whole source and appends the tokens and errors of `LexFrom`, then exactly one EOF token |
| Scanner.Lexer.ScanNext | src/java/learn/craftinginterpreters/lox/lexer/Lexer.java:64-154 | one lexeme is scanned: the cursor moves to `ScanOne`'s end, and its token and errors are appended |
| Scanner.Lexer.ScanSlash | src/java/learn/craftinginterpreters/lox/lexer/Lexer.java:117-129 | the `/` case adds a line comment, a block comment or SLASH, as `SlashLexeme` says |
| Scanner.Lexer.ScanOther | src/java/learn/craftinginterpreters/lox/lexer/Lexer.java:145-152 | the default case adds a number, an identifier or keyword, or reports "Unexpected character: c" |
| Scanner.Lexer.LineComment | src/java/learn/craftinginterpreters/lox/lexer/Lexer.java:118-122 | a line comment runs to the end of the line and becomes one COMMENT token whose literal is the text after `//` |
| Scanner.Lexer.ScanNumber | src/java/learn/craftinginterpreters/lox/lexer/Lexer.java:156-171 | a number is the longest digit run, with a fraction only when a digit follows the dot, and its literal is the parsed text |
| Scanner.Lexer.SkipDigits | src/java/learn/craftinginterpreters/lox/lexer/Lexer.java:157-159 | the digit loop stops at the end of the digit run and keeps the line counter in step |
| Scanner.Lexer.BlockComment | src/java/learn/craftinginterpreters/lox/lexer/Lexer.java:173-204 | `blockComment()` adds the token and reports the errors of `BlockCommentFrom` |
| Scanner.Lexer.CommentStep | src/java/learn/craftinginterpreters/lox/lexer/Lexer.java:174-201 | one turn of the block-comment loop either closes the comment on `*/` or continues the same scan, reporting unterminated quoted strings |
| Scanner.Lexer.SkipQuoted | src/java/learn/craftinginterpreters/lox/lexer/Lexer.java:177-186 | a quoted string inside a block comment is skipped past its closing quote, or to the end of input when it has none |
| Scanner.Lexer.ScanString | src/java/learn/craftinginterpreters/lox/lexer/Lexer.java:206-222 | a string literal adds a STRING token with the text between the quotes, or reports "Error unterminated string." |
| Scanner.Lexer.SkipStringBody | src/java/learn/craftinginterpreters/lox/lexer/Lexer.java:207-212 | the string loop stops at the closing quote or at the end of input, counting newlines |
| Scanner.Lexer.ScanIdentifier | src/java/learn/craftinginterpreters/lox/lexer/Lexer.java:224-237 | a word is the longest alphanumeric run, and its type comes from the keyword table or is IDENTIFIER |
| Scanner.Lexer.Advance | src/java/learn/craftinginterpreters/lox/lexer/Lexer.java:243-246 | `advance()` returns the current character and moves one step |
| Scanner.Lexer.MatchChar | src/java/learn/craftinginterpreters/lox/lexer/Lexer.java:248-258 | `match(c)` consumes one character exactly when it is not at the end and the next character is `c` |
| Scanner.Lexer.AddToken | src/java/learn/craftinginterpreters/lox/lexer/Lexer.java:286-293 | `addToken` appends one token with the text from `start` to `current` and the current line |
| Scanner.Lexer.Peek | src/java/learn/craftinginterpreters/lox/lexer/Lexer.java:268-273 | `peek()` is the current character, or `'\0'` at the end of input |
| Scanner.Lexer.PeekNext | src/java/learn/craftinginterpreters/lox/lexer/Lexer.java:275-280 | the corrected `peekNext()` is the character after the current one, or `'\0'` when there is none |
| Scanner.Lexer.AtEof | src/java/learn/craftinginterpreters/lox/lexer/Lexer.java:282-284 | `eof()` is false while characters remain, and then `peek()` is the current character |
| ScannerFacts.RunEndMaximal | src/java/learn/craftinginterpreters/lox/lexer/Lexer.java:224-227 | a character-class loop consumes only characters of the class and stops at the first character outside it |
| ScannerFacts.LineAtMonotone | src/java/learn/craftinginterpreters/lox/lexer/Lexer.java:135-143 | the line counter never decreases as the cursor advances |
| ScannerFacts.NumberTextOf | src/java/learn/craftinginterpreters/lox/lexer/Lexer.java:156-171 | a number lexeme is digits, optionally followed by a dot and at least one digit |
| ScannerFacts.BlockCommentWellFormed | src/java/learn/craftinginterpreters/lox/lexer/Lexer.java:195-199 | a block-comment token spans `/*` … `*/`, and its literal is the text between them |
| ScannerFacts.SymbolWellFormed | src/java/learn/craftinginterpreters/lox/lexer/Lexer.java:67-115 | punctuation and operator tokens carry the symbol text of their type |
| ScannerFacts.SlashWellFormed | src/java/learn/craftinginterpreters/lox/lexer/Lexer.java:117-129 | every token of the `/` case has a lexeme and literal that fit its type |
| ScannerFacts.LineCommentWellFormed | src/java/learn/craftinginterpreters/lox/lexer/Lexer.java:118-122 | a line-comment token's lexeme starts with `//` and holds no newline |
| ScannerFacts.BlockCommentTokenWellFormed | src/java/learn/craftinginterpreters/lox/lexer/Lexer.java:123-124 | a block-comment token has a lexeme and literal that fit its type |
| ScannerFacts.StringWellFormed | src/java/learn/craftinginterpreters/lox/lexer/Lexer.java:206-222 | a STRING token's lexeme is the quoted text, and its literal is the text without the quotes |
| ScannerFacts.NumberWellFormed | src/java/learn/craftinginterpreters/lox/lexer/Lexer.java:156-171 | a NUMBER token's lexeme is the number text and its literal is that text parsed |
| ScannerFacts.WordWellFormed | src/java/learn/craftinginterpreters/lox/lexer/Lexer.java:224-237 | a word token's lexeme is the word, its type is the keyword's or IDENTIFIER, and it has no literal |
| ScannerFacts.OtherWellFormed | src/java/learn/craftinginterpreters/lox/lexer/Lexer.java:145-152 | every token of the default case, a number or a word, has a lexeme and literal that fit its type |
| ScannerFacts.ScanOneWellFormed | src/java/learn/craftinginterpreters/lox/lexer/Lexer.java:64-154 | every token one `scanNext` adds has a lexeme and literal that fit its type |
| ScannerFacts.LexFromWellFormed | src/java/learn/craftinginterpreters/lox/lexer/Lexer.java:55-62 | every token the scan loop produces is well formed and none of them is EOF |
| ScannerFacts.LexFromLinesOrdered | src/java/learn/craftinginterpreters/lox/lexer/Lexer.java:55-62 | the line numbers of the produced tokens never decrease and lie between the start line and the last line |
| ScannerFacts.ScanResult | src/java/learn/craftinginterpreters/lox/lexer/Lexer.java:55-62 | `scan()` output ends with exactly one EOF token on the last line, all earlier tokens are well formed, and lines run from 1 upward |
| ScannerFacts.TwoCharacterOperators | src/java/learn/craftinginterpreters/lox/lexer/Lexer.java:104-115 | `!`, `=`, `<` and `>` form a two-character operator exactly when `=` follows, otherwise a one-character one |
| ScannerFacts.NumberIsMaximal | src/java/learn/craftinginterpreters/lox/lexer/Lexer.java:156-171 | a number lexeme stops before a non-digit, and leaves no `.digit` behind when it has no fraction |
| ScannerFacts.WordsAndKeywords | src/java/learn/craftinginterpreters/lox/lexer/Lexer.java:224-237 | a word is maximal; it is its keyword's type when it is in the table and IDENTIFIER otherwise |
| ScannerFacts.UnterminatedString | src/java/learn/craftinginterpreters/lox/lexer/Lexer.java:206-214 | a string with no closing quote consumes the rest of the input, adds no token, and reports "Error unterminated string." |
| ScannerFacts.Whitespace | src/java/learn/craftinginterpreters/lox/lexer/Lexer.java:135-143 | whitespace adds no token, and only a newline increments the line |
| ScannerFacts.UnexpectedCharacter | src/java/learn/craftinginterpreters/lox/lexer/Lexer.java:145-152 | any other character reports "Unexpected character: c" and is skipped |
| ScannerFacts.UnterminatedBlockComment | src/java/learn/craftinginterpreters/lox/lexer/Lexer.java:173-204 | a block comment with no `*/` outside quoted strings runs to the end of input, adds no token, and reports "Unterminated string in block comment." when its last `"` is left open, then "Unterminated block comment." |
| ScannerFacts.BlockCommentClosesAtFirst | src/java/learn/craftinginterpreters/lox/lexer/Lexer.java:173-204 | a block comment closes at the first `*/` outside quoted strings: the cursor moves just past it, one COMMENT token is added whose literal is the text between `/*` and that `*/`, and nothing more is reported |
| ScannerFacts.ClosingCommentSkipsString | src/java/learn/craftinginterpreters/lox/lexer/Lexer.java:177-191 | before the first `*/` outside strings, a quoted string is skipped whole, even when it holds a `*/` |
| ScannerFacts.ClosingCommentSkipsCharacter | src/java/learn/craftinginterpreters/lox/lexer/Lexer.java:174-201 | before the first `*/` outside strings, any other character is skipped |
| ScannerFacts.StringBeforeClose | src/java/learn/craftinginterpreters/lox/lexer/Lexer.java:177-191 | a string opened before the first `*/` outside strings closes before it, and that `*/` is still the first one after the string |
| ScannerFacts.CommentSkipsCharacter | src/java/learn/craftinginterpreters/lox/lexer/Lexer.java:174-201 | in an unterminated comment any character but `"` is skipped and the scan goes on with the same outcome |
| ScannerFacts.CommentSkipsString | src/java/learn/craftinginterpreters/lox/lexer/Lexer.java:177-191 | in an unterminated comment a `"` whose string closes is skipped whole, up to its closing quote, with the same outcome |
| ScannerFacts.CommentStepsOverString | src/java/learn/craftinginterpreters/lox/lexer/Lexer.java:177-191 | `blockComment()` on a `"` whose string closes resumes just past the closing `"`, where an even number of quotes has been passed |
| ScannerFacts.CommentEndsInString | src/java/learn/craftinginterpreters/lox/lexer/Lexer.java:177-203 | in an unterminated comment a `"` whose string runs to the end reports "Unterminated string in block comment." and then "Unterminated block comment." |
| ScannerFacts.PeekNextAsWritten | src/java/learn/craftinginterpreters/lox/lexer/Lexer.java:275-280 | `peekNext()` as written returns the character after the next one when it exists |
| ScannerFacts.TrailingDotOverrunsAsWritten | src/java/learn/craftinginterpreters/lox/lexer/Lexer.java:275-280 | as written, `peekNext()` on the input `1.` reads past the end of the source |
| ScannerFacts.TrailingDotScansAsDot | src/java/learn/craftinginterpreters/lox/lexer/Lexer.java:161-168 | with the guard corrected, `1.` scans as NUMBER `1` followed by DOT |
| ScannerFacts.StringAsWritten | src/java/learn/craftinginterpreters/lox/lexer/Lexer.java:206-222 | `string()` as written returns a STRING lexeme with no report when the quote closes; at the end of input it reports "Error unterminated string." and then throws |
| ScannerFacts.UnterminatedStringOverrunsAsWritten | src/java/learn/craftinginterpreters/lox/lexer/Lexer.java:214-218 | as written, an unterminated string always reports "Error unterminated string." and then ends in an out-of-range `advance()` |
| Grammar.BinaryLevel | src/java/learn/craftinginterpreters/lox/parser/Parser.java:104-170 | each binary operator belongs to exactly one tier: factor, term, comparison, equality or comma |
| Grammar.OperatorsOfTier | src/java/learn/craftinginterpreters/lox/parser/Parser.java:139-170 | the kinds a binary tier's `match(...)` takes are exactly the operators assigned to that tier, and never EOF |
| Grammar.LiteralOf | src/java/learn/craftinginterpreters/lox/parser/Parser.java:179-190 | `primary()` makes a literal exactly from `true`, `false`, `nil`, a number or a string |
| Grammar.SpansWidth | src/java/learn/craftinginterpreters/lox/parser/Parser.java:104-202 | a parsed tree covers exactly as many tokens as it has leaves and operators |
| Descent.Missing | src/java/learn/craftinginterpreters/lox/parser/Parser.java:227-233 | a failed `consume` throws at the token it stopped on and adds exactly its message at that token's line |
| Descent.Tier | src/java/learn/craftinginterpreters/lox/parser/Parser.java:104-202 | the expression rule of each tier never moves the cursor back and leaves it on a token; `ParseSoundness.TierSound` and `ParseCompleteness.TierComplete` state what it returns |
| Descent.Fold | src/java/learn/craftinginterpreters/lox/parser/Parser.java:139-170 | the loop of a binary tier never moves the cursor back and leaves it on a token |
| Descent.FoldStops | src/java/learn/craftinginterpreters/lox/parser/Parser.java:139-170 | the loop of a binary tier returns its operand unchanged when the next token is no operator of the tier |
| Descent.FoldTurn | src/java/learn/craftinginterpreters/lox/parser/Parser.java:139-170 | one turn of a binary tier's loop takes the operator and the next tighter-tier operand, passes on a throw, and otherwise continues with `left op right` |
| Descent.TernaryRule | src/java/learn/craftinginterpreters/lox/parser/Parser.java:128-137 | `ternary()` never moves the cursor back and leaves it on a token |
| Descent.UnaryRule | src/java/learn/craftinginterpreters/lox/parser/Parser.java:172-177 | `unary()` never moves the cursor back and leaves it on a token |
| Descent.PrimaryRule | src/java/learn/craftinginterpreters/lox/parser/Parser.java:179-202 | `primary()` never moves the cursor back and leaves it on a token |
| Descent.GroupRule | src/java/learn/craftinginterpreters/lox/parser/Parser.java:192-196 | the parenthesised case of `primary()` never moves the cursor back and leaves it on a token |
| Descent.AssignmentRule | src/java/learn/craftinginterpreters/lox/parser/Parser.java:112-126 | `assignment()` never moves the cursor back and leaves it on a token |
| Descent.Assigned | src/java/learn/craftinginterpreters/lox/parser/Parser.java:114-124 | the end of `assignment()` leaves the cursor where the value's rule did and keeps every earlier report |
| Descent.PrintStatementRule | src/java/learn/craftinginterpreters/lox/parser/Parser.java:92-96 | `printStatement()` never moves the cursor back and leaves it on a token |
| Descent.ExpressionStatementRule | src/java/learn/craftinginterpreters/lox/parser/Parser.java:98-102 | `expressionStatement()` never moves the cursor back and leaves it on a token |
| Descent.VarDeclarationRule | src/java/learn/craftinginterpreters/lox/parser/Parser.java:82-90 | `varDeclaration()` never moves the cursor back and leaves it on a token |
| Descent.Declared | src/java/learn/craftinginterpreters/lox/parser/Parser.java:88-89 | the closing `;` of a declaration never moves the cursor back and leaves it on a token |
| Descent.AttemptRule | src/java/learn/craftinginterpreters/lox/parser/Parser.java:69-75 | the `try` block of `statement()` never moves the cursor back and leaves it on a token |
| Descent.StatementRule | src/java/learn/craftinginterpreters/lox/parser/Parser.java:68-80 | `statement()` never moves the cursor back and leaves it on a token |
| Descent.SynchronizeRule | src/java/learn/craftinginterpreters/lox/parser/Parser.java:204-225 | `synchronize()` consumes one `;` and then stops; it stops without consuming on EOF or on one of the statement keywords of the inner `switch` (`StatementStarts`); on any other token it loops forever without moving; wherever it stops, it is on EOF, on a statement keyword or just after a `;` |
| Descent.StatementStartWords | src/java/learn/craftinginterpreters/lox/parser/Parser.java:211-220 | the keywords on which `synchronize()` stops are exactly `class`, `fun`, `if`, `while`, `for`, `var`, `return` and `print`, and every kind in `StatementStarts` is a keyword type |
| ParseSoundness.TierSound | src/java/learn/craftinginterpreters/lox/parser/Parser.java:104-202 | every expression rule is sound: a throw was reported; a returned tree is spelled by exactly the consumed tokens, has the shape of its tier, and holds `null` exactly when an error was reported; and the rule stops on a token its tier does not take |
| ParseSoundness.FoldSound | src/java/learn/craftinginterpreters/lox/parser/Parser.java:139-170 | the loop of a binary tier keeps that soundness from its first operand on |
| ParseSoundness.FoldStep | src/java/learn/craftinginterpreters/lox/parser/Parser.java:139-170 | one turn of a binary tier's loop folds to the left: `left op right` is spelled by the tokens of both operands and the operator between them |
| ParseSoundness.TernarySound | src/java/learn/craftinginterpreters/lox/parser/Parser.java:128-137 | `ternary()` is sound |
| ParseSoundness.TernaryStep | src/java/learn/craftinginterpreters/lox/parser/Parser.java:128-137 | a condition, `?`, a branch, `:` and a branch spell the ternary node `ternary()` builds |
| ParseSoundness.UnarySound | src/java/learn/craftinginterpreters/lox/parser/Parser.java:172-177 | `unary()` is sound |
| ParseSoundness.PrimarySound | src/java/learn/craftinginterpreters/lox/parser/Parser.java:179-202 | `primary()` is sound, including the `null` it returns after "Parsing error: primary expected." |
| ParseSoundness.GroupSound | src/java/learn/craftinginterpreters/lox/parser/Parser.java:192-196 | the parenthesised case of `primary()` is sound |
| ParseSoundness.AssignmentSound | src/java/learn/craftinginterpreters/lox/parser/Parser.java:112-126 | `assignment()` is sound: a returned tree is a right-nested chain of assignments over a ternary, spelled by exactly the consumed tokens |
| ParseSoundness.AssignedSound | src/java/learn/craftinginterpreters/lox/parser/Parser.java:114-124 | the end of `assignment()` is sound once its target and its value are |
| ParseSoundness.VarDeclarationSound | src/java/learn/craftinginterpreters/lox/parser/Parser.java:82-90 | `varDeclaration()` throws only after a report, and returns a declaration spelled by exactly the consumed tokens |
| ParseSoundness.InitializedDeclarationSound | src/java/learn/craftinginterpreters/lox/parser/Parser.java:85-89 | with `=` after the name, `varDeclaration()` is sound |
| ParseSoundness.DeclaredSound | src/java/learn/craftinginterpreters/lox/parser/Parser.java:88-89 | the closing `;` of a declaration with an initializer is sound |
| ParseSoundness.PrintStatementSound | src/java/learn/craftinginterpreters/lox/parser/Parser.java:92-96 | `printStatement()` throws only after a report, and returns a print statement spelled by exactly the consumed tokens |
| ParseSoundness.ExpressionStatementSound | src/java/learn/craftinginterpreters/lox/parser/Parser.java:98-102 | `expressionStatement()` throws only after a report, and returns an expression statement spelled by exactly the consumed tokens |
| ParseSoundness.AttemptSound | src/java/learn/craftinginterpreters/lox/parser/Parser.java:69-75 | the `try` block of `statement()` is sound, and the statement it returns is of the kind its first token selects |
| ParseSoundness.StatementSound | src/java/learn/craftinginterpreters/lox/parser/Parser.java:68-80 | `statement()` is sound; after an error it has reported, and `synchronize()` stopped at EOF, on a statement keyword or just past a `;`, or on a token it never leaves |
| ParseCompleteness.TierComplete | src/java/learn/craftinginterpreters/lox/parser/Parser.java:104-202 | every tier's rule returns every tree of its tier that holds no `null`, spelled by the tokens from the cursor and followed by a token the tier stops on, consuming exactly those tokens and reporting nothing |
| ParseCompleteness.FoldComplete | src/java/learn/craftinginterpreters/lox/parser/Parser.java:139-170 | the loop of a binary tier rebuilds such a tree operator by operator, folding to the left |
| ParseCompleteness.FoldNodeComplete | src/java/learn/craftinginterpreters/lox/parser/Parser.java:139-170 | the loop of a binary tier folds the left operand of `l op r`, then takes `op` and `r` |
| ParseCompleteness.TernaryComplete | src/java/learn/craftinginterpreters/lox/parser/Parser.java:128-137 | `ternary()` returns every complete tree of its tier |
| ParseCompleteness.TernaryNodeComplete | src/java/learn/craftinginterpreters/lox/parser/Parser.java:128-137 | `ternary()` returns every complete `c ? l : r`, splitting it at its `?` and `:` |
| ParseCompleteness.TernaryPartsComplete | src/java/learn/craftinginterpreters/lox/parser/Parser.java:128-137 | `ternary()` returns `c ? l : r` once the three operands are complete trees between its `?` and `:` |
| ParseCompleteness.UnaryComplete | src/java/learn/craftinginterpreters/lox/parser/Parser.java:172-177 | `unary()` returns every complete tree of its tier |
| ParseCompleteness.PrimaryComplete | src/java/learn/craftinginterpreters/lox/parser/Parser.java:179-202 | `primary()` returns every literal, variable and complete parenthesised expression |
| ParseCompleteness.AssignmentComplete | src/java/learn/craftinginterpreters/lox/parser/Parser.java:112-126 | `assignment()` returns every complete right-nested chain of assignments over a ternary |
| ParseCompleteness.LeadingToken | src/java/learn/craftinginterpreters/lox/parser/Parser.java:179-202 | a complete tree starts with a token that starts an expression, so never with `print` or `var` |
| ParseCompleteness.StatementComplete | src/java/learn/craftinginterpreters/lox/parser/Parser.java:68-80 | `statement()` returns every complete statement, consuming exactly its tokens and reporting nothing |
| ParseCompleteness.AttemptComplete | src/java/learn/craftinginterpreters/lox/parser/Parser.java:69-75 | the `try` block of `statement()` returns every complete statement |
| ParseCompleteness.PrintStatementComplete | src/java/learn/craftinginterpreters/lox/parser/Parser.java:92-96 | `printStatement()` returns every complete expression followed by `;` |
| ParseCompleteness.ExpressionStatementComplete | src/java/learn/craftinginterpreters/lox/parser/Parser.java:98-102 | `expressionStatement()` returns every complete expression followed by `;` |
| ParseCompleteness.VarDeclarationComplete | src/java/learn/craftinginterpreters/lox/parser/Parser.java:82-90 | `varDeclaration()` returns every complete declaration, with or without an initializer |
| ParseCompleteness.ReadingIsUnique | src/java/learn/craftinginterpreters/lox/parser/Parser.java:104-202 | the grammar is unambiguous: two complete trees of a tier read from the same token, each followed by a token the tier stops on, are the same tree over the same tokens |
| Parsing.Parser.constructor | src/java/learn/craftinginterpreters/lox/parser/Parser.java:30-35 | a new parser holds the tokens, which end with EOF, and starts at token 0 with no errors |
| Parsing.Parser.Peek | src/java/learn/craftinginterpreters/lox/parser/Parser.java:258-260 | `peek()` is the token at the cursor |
| Parsing.Parser.AtEof | src/java/learn/craftinginterpreters/lox/parser/Parser.java:262-264 | `eof()` holds on the last token, the EOF that ends the list |
| Parsing.Parser.Previous | src/java/learn/craftinginterpreters/lox/parser/Parser.java:250-256 | `previous()` is the token before the cursor |
| Parsing.Parser.Advance | src/java/learn/craftinginterpreters/lox/parser/Parser.java:243-248 | `advance()` moves one token except at EOF, and returns the new current token, `peek()` |
| Parsing.Parser.Match | src/java/learn/craftinginterpreters/lox/parser/Parser.java:235-241 | `match(types)` consumes one token exactly when its type is among the given types |
| Parsing.Parser.Consume | src/java/learn/craftinginterpreters/lox/parser/Parser.java:227-233 | `consume` returns and consumes a token of an expected type; otherwise it reports the message at the token's line and throws |
| Parsing.Parser.Expression | src/java/learn/craftinginterpreters/lox/parser/Parser.java:104-110 | returns, throws, moves the cursor and adds reports exactly as the comma tier of `Tier` says of the same tokens, cursor and reports |
| Parsing.Parser.Assign | src/java/learn/craftinginterpreters/lox/parser/Parser.java:112-126 | returns, throws, moves the cursor and adds reports exactly as `AssignmentRule` says of the same tokens, cursor and reports |
| Parsing.Parser.Ternary | src/java/learn/craftinginterpreters/lox/parser/Parser.java:128-137 | returns, throws, moves the cursor and adds reports exactly as the ternary tier of `Tier` says of the same tokens, cursor and reports |
| Parsing.Parser.Equality | src/java/learn/craftinginterpreters/lox/parser/Parser.java:139-146 | returns, throws, moves the cursor and adds reports exactly as the equality tier of `Tier`: `==`/`!=` operands folded to the left says of the same tokens, cursor and reports |
| Parsing.Parser.Comparison | src/java/learn/craftinginterpreters/lox/parser/Parser.java:148-154 | returns, throws, moves the cursor and adds reports exactly as the comparison tier of `Tier`: `<`, `<=`, `>`, `>=` operands folded to the left says of the same tokens, cursor and reports |
| Parsing.Parser.Addition | src/java/learn/craftinginterpreters/lox/parser/Parser.java:156-162 | returns, throws, moves the cursor and adds reports exactly as the term tier of `Tier`: `+`/`-` operands folded to the left says of the same tokens, cursor and reports |
| Parsing.Parser.Multiplication | src/java/learn/craftinginterpreters/lox/parser/Parser.java:164-170 | returns, throws, moves the cursor and adds reports exactly as the factor tier of `Tier`: `*`/`/` operands folded to the left says of the same tokens, cursor and reports |
| Parsing.Parser.Unary | src/java/learn/craftinginterpreters/lox/parser/Parser.java:172-177 | returns, throws, moves the cursor and adds reports exactly as the unary tier of `Tier` says of the same tokens, cursor and reports |
| Parsing.Parser.Primary | src/java/learn/craftinginterpreters/lox/parser/Parser.java:179-202 | returns, throws, moves the cursor and adds reports exactly as `PrimaryRule` says of the same tokens, cursor and reports |
| Parsing.Parser.Group | src/java/learn/craftinginterpreters/lox/parser/Parser.java:192-196 | returns, throws, moves the cursor and adds reports exactly as `GroupRule` says of the same tokens, cursor and reports |
| Parsing.Parser.Statement | src/java/learn/craftinginterpreters/lox/parser/Parser.java:68-80 | returns, throws, moves the cursor and adds reports exactly as `StatementRule`: the `try` block, or after an error `synchronize()` and a `null` statement, or no return when `synchronize()` loops forever says of the same tokens, cursor and reports |
| Parsing.Parser.Synchronize | src/java/learn/craftinginterpreters/lox/parser/Parser.java:204-225 | `synchronize()` skips one `;`, stops at EOF or at a statement keyword, and loops forever on any other token |
| Parsing.Parser.VarDeclaration | src/java/learn/craftinginterpreters/lox/parser/Parser.java:82-90 | returns, throws, moves the cursor and adds reports exactly as `VarDeclarationRule` says of the same tokens, cursor and reports |
| Parsing.Parser.Declare | src/java/learn/craftinginterpreters/lox/parser/Parser.java:88-89 | returns, throws, moves the cursor and adds reports exactly as `Declared` says of the same tokens, cursor and reports |
| Parsing.Parser.PrintStatement | src/java/learn/craftinginterpreters/lox/parser/Parser.java:92-96 | returns, throws, moves the cursor and adds reports exactly as `PrintStatementRule` says of the same tokens, cursor and reports |
| Parsing.Parser.ExpressionStatement | src/java/learn/craftinginterpreters/lox/parser/Parser.java:98-102 | returns, throws, moves the cursor and adds reports exactly as `ExpressionStatementRule` says of the same tokens, cursor and reports |
| ParserFacts.OperandAlone | src/java/learn/craftinginterpreters/lox/parser/Parser.java:139-199 | every tier returns an identifier followed by a token it stops on as a lone variable, consuming one token |
| ParserFacts.OperandPair | src/java/learn/craftinginterpreters/lox/parser/Parser.java:139-170 | every tier that folds `op` returns `x op y` over two identifiers as the one binary node, consuming the three tokens and reporting nothing |
| ParserFacts.OperatorChain | src/java/learn/craftinginterpreters/lox/parser/Parser.java:139-170 | on `x op1 y op2 z` a tier returns `(x op1 y) op2 z` when op1 binds no looser than op2, and `x op1 (y op2 z)` otherwise |
| ParserFacts.SubtractionFoldsLeft | src/java/learn/craftinginterpreters/lox/parser/Parser.java:104-162 | `expr()` on `a - b - c ;` returns `(a - b) - c` and stops on the `;` without reports |
| ParserFacts.ProductBindsTighter | src/java/learn/craftinginterpreters/lox/parser/Parser.java:104-170 | `expr()` on `a + b * c ;` returns `a + (b * c)` and stops on the `;` without reports |
| ParserFacts.ProductBindsTighterOnTheLeft | src/java/learn/craftinginterpreters/lox/parser/Parser.java:104-170 | `expr()` on `a * b + c ;` returns `(a * b) + c` and stops on the `;` without reports |
| ParserFacts.PrintOfChain | src/java/learn/craftinginterpreters/lox/parser/Parser.java:68-96 | `statement()` on `print a - b - c ;` returns the print of `(a - b) - c`, consuming all seven tokens without reports |
| ParserFacts.NoExpression | src/java/learn/craftinginterpreters/lox/parser/Parser.java:179-202 | on a token that starts no expression, every tier reports "Parsing error: primary expected." once and returns `null` without consuming |
| ParserFacts.EmptyStatement | src/java/learn/craftinginterpreters/lox/parser/Parser.java:98-102 | a lone `;` is an expression statement holding `null`, with that one report, and nothing is skipped |
| ParserFacts.PrintMissingSemicolon | src/java/learn/craftinginterpreters/lox/parser/Parser.java:92-96 | `print e` followed by no `;` throws at the token found, reporting "Print statement is missing semi-colon ;" at its line |
| ParserFacts.VarWithoutName | src/java/learn/craftinginterpreters/lox/parser/Parser.java:82-83 | `var` not followed by a name throws with "var keyword requires an identifier;" at the next token's line |
| ParserFacts.MissingClosingParenthesis | src/java/learn/craftinginterpreters/lox/parser/Parser.java:192-196 | `( e` followed by no `)` throws at the token found, reporting "Missing closing parenthesis." at its line |
| ParserFacts.MissingColon | src/java/learn/craftinginterpreters/lox/parser/Parser.java:128-137 | `c ? l` followed by no `:` throws at the token found, reporting "Missing colon ':' ternary operator." at its line |
| ParserFacts.InvalidAssignmentTarget | src/java/learn/craftinginterpreters/lox/parser/Parser.java:112-126 | `t = v` whose target is no variable throws after the value, reporting "Invalid assignement." at the line of the `=` |
| ParserFacts.AssignmentThrows | src/java/learn/craftinginterpreters/lox/parser/Parser.java:114-123 | `assignment()` throws "Invalid assignement." once its target is no variable and its value parsed without reports |
| Environments.Declare | src/java/learn/craftinginterpreters/lox/interpreter/Environment.java:46-48 | `init` writes only the innermost scope |
| Environments.Bound | src/java/learn/craftinginterpreters/lox/interpreter/Environment.java:23-31 | a name is bound exactly when the innermost scope has it or an enclosing scope binds it |
| Environments.Lookup | src/java/learn/craftinginterpreters/lox/interpreter/Environment.java:33-40 | a bound name reads as its value in some scope that declares it |
| Environments.AssignNearest | src/java/learn/craftinginterpreters/lox/interpreter/Environment.java:50-55 | assigning keeps the number of scopes and the set of names of every scope |
| Environments.LookupIsInnermost | src/java/learn/craftinginterpreters/lox/interpreter/Environment.java:33-40 | a name resolves to its binding in the innermost scope that declares it |
| Environments.LookupUnbound | src/java/learn/craftinginterpreters/lox/interpreter/Environment.java:33-40 | a name no scope declares reads as `null` |
| Environments.AssignNearestEffect | src/java/learn/craftinginterpreters/lox/interpreter/Environment.java:50-55 | assigning updates only the nearest binding of the name and keeps the set of bound names |
| Environments.AssignUnbound | src/java/learn/craftinginterpreters/lox/interpreter/Environment.java:50-55 | assigning a name no scope declares changes nothing |
| Environments.DeclareEffect | src/java/learn/craftinginterpreters/lox/interpreter/Environment.java:46-48 | after `init` the name is bound to the value and every other name reads as before |
| Environments.BoundCons | src/java/learn/craftinginterpreters/lox/interpreter/Environment.java:23-31 | a name is bound when the innermost scope has it or an enclosing scope binds it |
| Environments.Environment.Scopes | src/java/learn/craftinginterpreters/lox/interpreter/Environment.java:9-11 | the chain of scopes starts with this environment's own map |
| Environments.Environment.Global | src/java/learn/craftinginterpreters/lox/interpreter/Environment.java:13-16 | the global environment has no parent and one empty scope |
| Environments.Environment.Nested | src/java/learn/craftinginterpreters/lox/interpreter/Environment.java:18-21 | a nested environment adds one empty scope in front of its parent's chain |
| Environments.Environment.HasVariable | src/java/learn/craftinginterpreters/lox/interpreter/Environment.java:23-31 | `hasVariable` is true exactly when some scope of the chain declares the name |
| Environments.Environment.GetValue | src/java/learn/craftinginterpreters/lox/interpreter/Environment.java:33-40 | `getValue` returns the innermost binding of the name, or `null` |
| Environments.Environment.Init | src/java/learn/craftinginterpreters/lox/interpreter/Environment.java:46-48 | `init(name, value)` binds the name in this scope only |
| Environments.Environment.InitNil | src/java/learn/craftinginterpreters/lox/interpreter/Environment.java:42-44 | `init(name)` binds the name to `null` in this scope only |
| Environments.Environment.Assign | src/java/learn/craftinginterpreters/lox/interpreter/Environment.java:50-57 | `assign` updates the nearest binding, if there is one, and then always throws "Undeclared variable name" |
| Interpreting.IsEqual | src/java/learn/craftinginterpreters/lox/interpreter/Interpreter.java:210-218 | `isEqual` is value equality, with `null` equal only to `null` |
| Interpreting.Truthy | src/java/learn/craftinginterpreters/lox/interpreter/Interpreter.java:200-208 | only `null` and `false` are falsy |
| Interpreting.CheckNumber | src/java/learn/craftinginterpreters/lox/interpreter/Interpreter.java:220-225 | `checkNumber` passes exactly for numbers, and otherwise throws "Operand must be number!" at the operator |
| Interpreting.CheckNumbers | src/java/learn/craftinginterpreters/lox/interpreter/Interpreter.java:227-232 | `checkNumbers` passes exactly when both operands are numbers, and otherwise throws "Operands must be number!" |
| Interpreting.CheckString | src/java/learn/craftinginterpreters/lox/interpreter/Interpreter.java:234-239 | `checkString` passes exactly for strings, and otherwise throws "Operand must be string!" |
| Interpreting.CheckStrings | src/java/learn/craftinginterpreters/lox/interpreter/Interpreter.java:241-246 | `checkStrings` passes exactly when both operands are strings, and otherwise throws "Operands must be string!" |
| Interpreting.StringCompare | src/java/learn/craftinginterpreters/lox/interpreter/Interpreter.java:65-66 | `String.compareTo` is 0 on equal strings, and the length difference when one string is a prefix of the other |
| Interpreting.BinaryValue | src/java/learn/craftinginterpreters/lox/interpreter/Interpreter.java:33-85 | the operator switch of `visit(Binary)`: a thrown error names the operator, a crash needs a `null` operand, and `==`, `!=` and the comparisons give booleans |
| Interpreting.Arithmetic | src/java/learn/craftinginterpreters/lox/interpreter/Interpreter.java:43-51 | `-`, `*` and `/` give a number exactly when both operands are numbers, and otherwise throw "Operands must be number!" at the operator |
| Interpreting.Comparison | src/java/learn/craftinginterpreters/lox/interpreter/Interpreter.java:61-83 | `<`, `<=`, `>` and `>=` give a boolean exactly on two numbers or two strings; otherwise they crash exactly when an operand is `null`, and throw at the operator |
| Interpreting.Ordered | src/java/learn/craftinginterpreters/lox/interpreter/Interpreter.java:72-82 | the inner `switch` on the `compareTo` result: a negative result satisfies exactly `<` and `<=`, zero exactly `<=` and `>=`, a positive one exactly `>` and `>=` |
| Interpreting.Accept | src/java/learn/craftinginterpreters/lox/parser/Expr.java:5 | `expr.accept(this)` as the node classes implement it (`accept` in Binary.java:17-19 visits the node, Assignment.java:15-17 returns `null` without visiting, and a `null` child throws a null-dereference exception): every RuntimeError it throws names a token |
| Interpreting.Visit | src/java/learn/craftinginterpreters/lox/interpreter/Interpreter.java:27-131 | every RuntimeError a `visit` throws names a token, and a variable evaluates exactly when some scope binds its name |
| Interpreting.StringCompareIsLexicographic | src/java/learn/craftinginterpreters/lox/interpreter/Interpreter.java:65-66 | `String.compareTo` is negative exactly when the first string precedes the second lexicographically |
| Interpreting.StringCompareAntisymmetric | src/java/learn/craftinginterpreters/lox/interpreter/Interpreter.java:65-66 | `String.compareTo` is zero exactly on equal strings, and swapping the operands negates it |
| Interpreting.Evaluate | src/java/learn/craftinginterpreters/lox/interpreter/Interpreter.java:185-198 | `evaluate` visits binary, literal, ternary, grouping and variable nodes, and throws "Unhanded expression type" for `null`, unary and assignment |
| Interpreting.Exec | src/java/learn/craftinginterpreters/lox/interpreter/Interpreter.java:144-183 | executing a statement never drops a scope, and a completed statement leaves the scope depth as it was |
| Interpreting.ExpressionStatementEffect | src/java/learn/craftinginterpreters/lox/interpreter/Interpreter.java:144-148 | an expression statement changes no scope and no output, completes exactly when its expression evaluates, and passes on the error or crash otherwise |
| Interpreting.PrintStatementEffect | src/java/learn/craftinginterpreters/lox/interpreter/Interpreter.java:150-155 | a print statement changes no scope, appends the value's text when it evaluates to a value other than `null`, crashes on `null`, and passes on a thrown error |
| Interpreting.ExecAll | src/java/learn/craftinginterpreters/lox/interpreter/Interpreter.java:177-180 | executing a statement list never drops a scope, and a completed list leaves the depth as it was |
| Interpreting.TernarySkipsOtherBranch | src/java/learn/craftinginterpreters/lox/interpreter/Interpreter.java:92-96 | a ternary evaluates only the branch its condition selects; the other may even be `null` |
| Interpreting.PlusOutcome | src/java/learn/craftinginterpreters/lox/interpreter/Interpreter.java:34-42 | `+` adds two numbers and concatenates when a string is involved; a string with `null` crashes; anything else throws "Operands must be either Double or String" |
| Interpreting.ArithmeticOutcome | src/java/learn/craftinginterpreters/lox/interpreter/Interpreter.java:43-51 | `-`, `*` and `/` give a number exactly when both operands are numbers, and otherwise throw "Operands must be number!" |
| Interpreting.EqualityOutcome | src/java/learn/craftinginterpreters/lox/interpreter/Interpreter.java:52-57 | `==` and `!=` compare values, and `,` yields its right operand |
| Interpreting.StringComparisonIsLexicographic | src/java/learn/craftinginterpreters/lox/interpreter/Interpreter.java:61-83 | `<`, `>`, `<=` and `>=` on strings are lexicographic order |
| Interpreting.MixedComparisonFails | src/java/learn/craftinginterpreters/lox/interpreter/Interpreter.java:67-70 | comparing anything but two numbers or two strings throws "Uncomparable objects x vs y", or crashes when an operand is `null` |
| Interpreting.DeclarationEffect | src/java/learn/craftinginterpreters/lox/interpreter/Interpreter.java:157-172 | redeclaring a visible name throws "Variable has been declared: name"; otherwise the name is bound in the innermost scope to the initializer's value or `null` |
| Interpreting.ExecEffect | src/java/learn/craftinginterpreters/lox/interpreter/Interpreter.java:144-183 | a statement only appends output, and when it completes it changes no enclosing scope |
| Interpreting.ExecAllEffect | src/java/learn/craftinginterpreters/lox/interpreter/Interpreter.java:177-180 | a statement list only appends output, and when it completes it changes no enclosing scope |
| Interpreting.BlockRestoresScopes | src/java/learn/craftinginterpreters/lox/interpreter/Interpreter.java:174-183 | a block that completes leaves exactly the scopes it found |
| Interpreting.BlockLeaksScopeOnError | src/java/learn/craftinginterpreters/lox/interpreter/Interpreter.java:174-183 | a block that throws leaves its own scope in place |
| Interpreting.ShadowingThrows | src/java/learn/craftinginterpreters/lox/interpreter/Interpreter.java:161-163 | `var a = 1; { var a = 2; }` throws "Variable has been declared: a" inside the block |
| Interpreting.BlockSeesEnclosingScope | src/java/learn/craftinginterpreters/lox/interpreter/Interpreter.java:123-131 | `var a = "text"; { print a; }` prints `text` and leaves one scope |
| Interpreting.UnaryStatementThrows | src/java/learn/craftinginterpreters/lox/interpreter/Interpreter.java:108-121 | a negated number evaluates by `accept`, but a statement built on it throws "Unhanded expression type" |
| Interpreting.Interpreter.State | src/java/learn/craftinginterpreters/lox/interpreter/Interpreter.java:22 | the interpreter's state, its current environment's scope chain and the output, always has at least one scope |
| Interpreting.Interpreter.constructor | src/java/learn/craftinginterpreters/lox/interpreter/Interpreter.java:22-25 | a new interpreter starts with one empty global scope and no output |
| Interpreting.Interpreter.Execute | src/java/learn/craftinginterpreters/lox/interpreter/Interpreter.java:144-172 | executing a statement gives exactly the signal and state of `Exec`, and a completed statement keeps the current environment |
| Interpreting.Interpreter.ExecuteBlock | src/java/learn/craftinginterpreters/lox/interpreter/Interpreter.java:174-183 | a block runs in a fresh nested environment with the result of `Exec`, and returns to the enclosing environment when it completes |
| Interpreting.Interpreter.VisitAssignment | src/java/learn/craftinginterpreters/lox/interpreter/Interpreter.java:133-138 | `visit(Assignment)` evaluates the value, updates the nearest binding, and then always throws "Undeclared variable name" |
| Display.Appended | src/java/learn/craftinginterpreters/lox/interpreter/SimpleDisplayVisitor.java:17-24 | appending a child's rendering fails exactly when rendering the child throws, and a `null` rendering appends as "null" |
| Display.Accept | src/java/learn/craftinginterpreters/lox/parser/Assignment.java:15-17 | the rendering is `null` exactly for an assignment node, whose `accept` returns `null` without visiting |
| Display.Visit | src/java/learn/craftinginterpreters/lox/interpreter/SimpleDisplayVisitor.java:17-67 | no `visit` returns `null`, and a variable or an assignment always renders |
| Display.DisplayCrashesOnlyOnNull | src/java/learn/craftinginterpreters/lox/interpreter/SimpleDisplayVisitor.java:17-67 | displaying throws exactly when a visited child is `null` or a visited literal is `null` |
| Display.JoinedAround | src/java/learn/craftinginterpreters/lox/interpreter/SimpleDisplayVisitor.java:17-24 | joining texts around an operator puts one space on each side of it |
| Display.DisplayBinary | src/java/learn/craftinginterpreters/lox/interpreter/SimpleDisplayVisitor.java:17-24 | a binary node displays as its operands around its operator |
| Display.FlatDisplayIsSource | src/java/learn/craftinginterpreters/lox/interpreter/SimpleDisplayVisitor.java:17-59 | a parsed tree of variables and binary operators displays as its source tokens separated by single spaces |
| Display.FlatBinaryIsSource | src/java/learn/craftinginterpreters/lox/interpreter/SimpleDisplayVisitor.java:17-24 | for a binary node, the display is its source tokens separated by single spaces |

## Left out

- `Lox.java` (the driver: reading files, the REPL, the `hadError` flag, printing to standard error) is not part of this model. Error reports are collected in a list instead.
- `GenerateAST.java` (the code generator for the AST classes) is not part of this model.
- Floating point is not modelled: `Double` is an abstract `Number`. Parsing, `toString`, `+ - * /`, negation and `compareTo` are the `HostNumbers` functions supplied by the caller. Number-versus-number comparison is stated only through `compareTo`, not by IEEE ordering.
- `Double.equals` is modelled as equality of the abstract numbers, so NaN and signed-zero equality are not captured.
- `System.out.println` is modelled as appending to the interpreter's `out` sequence.
- `Parser.parse()` and `Parser.blockStatement()`, the outer loops that collect statements, are not modelled. The model covers each statement rule that they call.
- Parsing.Parser.Synchronize: `synchronize()` loops forever when it stops on a token it never consumes. The model does not run that loop; it reports the case in the `hangs` result and `Diverges`.
- `previous()` calls `System.exit` when `current` is 0. The model makes `current > 0` a precondition of `Previous` instead.
- Parsing.Parser.Match: requires that EOF is not among the expected types, which every call site in `Parser.java` meets.
- Parsing.Parser.Consume: requires that EOF is not among the expected types, which every call site in `Parser.java` meets.
- `Token.toString()` is not modelled. It is debugging output that nothing in the core reads.
- The AST getters are the Dafny datatype's destructors. The immutability of the node classes is implicit in datatypes.
- Visitor double dispatch (`accept` / `visit`) is modelled by `match` on the datatype.
- `Stmt.Visitor` declares no `visit(BlockStmt)` overload, although `BlockStmt.accept` and `Interpreter` use one. The model gives blocks the intended fourth statement variant.
- Display.Visit: `visit(Assignment)` appends the value expression object itself. Its `Object.toString()` is not defined in the source, so it is the caller-supplied `objectText`.
- Java strings are sequences of UTF-16 code units; the model's strings are sequences of Unicode code points. A character outside the Basic Multilingual Plane is one character here and two in the source. So `String.compareTo` (`Interpreting.StringCompare`) can order such strings differently, for example `"\uFFFF"` against an emoji. Also, the lexer reports one "Unexpected character" for such a character where the source reports two.
- The lexer's `line` is an unbounded integer; the 32-bit `int` width of the line counter is not modelled.
- `Token` and `RuntimeError` identity (reference equality) is not modelled; both are values.

## Findings

| source | as written | input that shows it | evidently intended | confidence | as-written member | corrected member |
|---|---|---|---|---|---|---|
| src/java/learn/craftinginterpreters/lox/lexer/Lexer.java:275-280 | `peekNext()` guards with `current > source.length() + 2`, so it reads `charAt(current + 1)` past the end | the source `1.`: after the digit, `peek()` is `.` at the last index and `peekNext()` reads index 2 of a 2-character string | return `'\0'` when `current + 1 >= source.length()`, so `1.` scans as NUMBER `1` then DOT | high (not executed) | ScannerFacts.TrailingDotOverrunsAsWritten | ScannerFacts.TrailingDotScansAsDot |
| src/java/learn/craftinginterpreters/lox/lexer/Lexer.java:214-221 | after reporting "Error unterminated string." `string()` still calls `advance()` and `substring`, which read past the end | the source `"abc` (no closing quote) | stop after the report and add no token | high (not executed) | ScannerFacts.UnterminatedStringOverrunsAsWritten | ScannerFacts.UnterminatedString |
