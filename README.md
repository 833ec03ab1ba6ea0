# hdl-compiler core, modelled in Dafny

hdl-compiler translates a small hardware description language into a
circuit of components that it writes out, as JSON, for a logic simulator.
A source file is a list of `block`s. Each block declares `in` and `out`
signals, with an optional bit width (`in[8] a;`), and instances of other
blocks (`block name x;`); only the Rust lexer also knows a `wire` keyword.
Its behaviour is a list of assignments between bitwise expressions (`&`,
`|`, `^`, `~`, parentheses, sized constants such as `5#3`).

The pipeline is:
- the lexer turns characters into tokens;
- the recursive-descent parser builds a syntax tree;
- the semantic analyzer fills the symbol tables and checks access and widths;
- the intermediate generator lowers each block to statements over numbered
  signals;
- the intermediate file stores blocks, statements and names in a binary
  format;
- the linker merges several such files;
- the logic simulator back end flattens nested blocks into one circuit of
  components.

The repository has a C++ implementation (the main one), a Rust rewrite
(its lexer, symbol table, intermediate representation and linker are
modelled here) and parts of an older C version (the command-line input list
and the chained hash table).

Each source file is one Dafny module:

| Dafny file | module | models |
|---|---|---|
| lexer.dfy | Lexer | src/frontend/Lexer.cpp |
| lexer_rs.dfy | LexerRs | src/frontend/lexer.rs |
| ast.dfy | AST | the syntax tree of src/frontend/AST.h |
| parser.dfy | Parser | src/frontend/Parser.cpp |
| parser_printer.dfy | ParserPrinter | a printer for syntax trees and the parse/print round trips |
| symbol_table.dfy | Symbols | src/frontend/SymbolTable.cpp |
| symbol_table_rs.dfy | SymbolTableRs | src/frontend/symbol_table.rs |
| semantic_analyzer.dfy | SemanticAnalyzer | src/frontend/SemanticAnalyzer.cpp |
| intermediate.dfy | Intermediate | src/shared/Intermediate.cpp |
| intermediate_rs.dfy | IntermediateRs | src/shared/intermediate.rs |
| intermediate_generator.dfy | IntermediateGenerator | src/frontend/IntermediateGenerator.cpp |
| buffer_helper.dfy | BufferHelper | src/shared/helper/BufferHelper.h |
| intermediate_file.dfy | IntermediateFile | src/shared/IntermediateFile.cpp |
| linker.dfy | Linker | src/linker/Linker.cpp |
| linker_rs.dfy | LinkerRs | src/linker/mod.rs |
| logic_simulator.dfy | LogicSimulator | src/backend/LogicSimulator/LogicSimulator.cpp |
| hashtable.dfy | HashTable | src/shared/helper/hashtable.c |
| driver.dfy | Driver, DriverC | the file-name helpers of src/main.cpp and src/main.c |
| wrappers.dfy | Wrappers | shared Option, Result and decimal printing |

Objects whose fields the source updates in place are classes:
- the lexers, the parser, the symbol tables and the intermediate blocks;
- the string table of the file writer, the simulator circuit and the hash table.

Each method of these classes is proved against a specification function
over values. Those functions carry the properties: round trips, iff
conditions for every error, and the invariants each update keeps.

Two lexers read characters through a virtual position `v`. `CharAt(data, v)`
is the character at `v`, or end of file from `|data|` on.
`Locate(loc, data, p0, v)` is the location after reading positions `p0`
to `v - 1`. This lets the class methods state where the stream and the
location stand after each call.

## Model

| member | source | states |
|---|---|---|
| Lexer.Lexer.constructor | src/frontend/Lexer.cpp:84-87 | a new lexer is at position 0, line 1, column 0, with the stream not failed |
| Lexer.Lexer.Getc | src/frontend/Lexer.cpp:89-102 | returns the next character, or EOF once the stream has failed; the saved location is the old one; a line break moves to the next line at column 0, anything else one column on |
| Lexer.Lexer.Ungetc | src/frontend/Lexer.cpp:104-107 | steps the stream back one character unless it has failed, and restores the location saved by the last getc |
| Lexer.Lexer.SkipPass | src/frontend/Lexer.cpp:112-125 | one pass of the skipping loop ends where SkipPassEnd says; a '/' not followed by '/' is pushed back |
| Lexer.Lexer.ReadComment | src/frontend/Lexer.cpp:117-121 | a "//" comment is read up to its line break, or up to the end of the file (see Left out and Findings) |
| Lexer.Lexer.SkipBlank | src/frontend/Lexer.cpp:112-126 | the skipping loop stops at TokenStart, the first character that is neither whitespace nor part of a comment |
| Lexer.Lexer.ReadDigits | src/frontend/Lexer.cpp:131-135 | reads a digit run to its end and returns value * 10 + digit accumulated in std::uint64_t |
| Lexer.Lexer.ReadNumber | src/frontend/Lexer.cpp:128-167 | the number branch returns exactly ScanNumber's token or error, and leaves the stream where ScanNumber says |
| Lexer.Lexer.ReadWidth | src/frontend/Lexer.cpp:139-155 | the width after '#' gives the error for width 0 or above 64, or the number token with that width |
| Lexer.Lexer.ReadWordChars | src/frontend/Lexer.cpp:171-174 | collects exactly the word's characters, up to the first one that is not a letter, digit or '_' |
| Lexer.Lexer.ReadWord | src/frontend/Lexer.cpp:168-189 | the word branch returns ScanWord's keyword or identifier token |
| Lexer.Lexer.ReadNextToken | src/frontend/Lexer.cpp:109-225 | the token or error is Scan's, and the new position, location, saved location and failed flag are those after Scan's reads |
| Lexer.TokenStartSkipsBlank | src/frontend/Lexer.cpp:112-126 | whitespace before a token is skipped; a character that is neither whitespace nor '/' is itself the token start |
| Lexer.TokenStartChar | src/frontend/Lexer.cpp:112-126 | a token never starts with whitespace or with "//" |
| Lexer.AccumulateIsDecimal | src/frontend/Lexer.cpp:129-135 | the accumulated number is the literal's decimal value modulo 2^64 |
| Lexer.NumberValueExact | src/frontend/Lexer.cpp:129-135 | a literal of at most 19 digits keeps its exact decimal value |
| Lexer.ScanNumberOutcome | src/frontend/Lexer.cpp:128-167 | without '#' the token is the number with width 0; with '#' it fails iff the width is 0 or above 64, and otherwise carries the value and width |
| Lexer.WidthQuirk | src/frontend/Lexer.cpp:139-146 | the character after '#' is taken as a digit unchecked: "1#a" is 1 with width 49 |
| Lexer.KeywordExact | src/frontend/Lexer.cpp:178-184 | the keywords are exactly "in", "out" and "block", each with its own token type |
| Lexer.ScanWordText | src/frontend/Lexer.cpp:168-189 | a word ends at the first character that cannot continue it; an identifier carries exactly its text, a keyword none |
| Lexer.PunctuationInjective | src/frontend/Lexer.cpp:190-221 | distinct punctuation characters give distinct token types |
| Lexer.ScanSymbolOutcome | src/frontend/Lexer.cpp:190-225 | EOF gives EndOfFile; any other character fails iff it is not punctuation; punctuation gives its own token type |
| Lexer.ScanAdvances | src/frontend/Lexer.cpp:109-225 | every call consumes input and stays within one past the end of the file; only EndOfFile may read past the end |
| Lexer.Tokenize | src/frontend/Lexer.cpp:109-225 | the tokens successive calls give: an error-free run ends with exactly one EndOfFile, as the last token |
| Lexer.CommentEnd | src/frontend/Lexer.cpp:117-121 | the corrected comment loop ends at the first line break, or at the end of the file |
| Lexer.CommentAtEndOfFileNeverEnds | src/frontend/Lexer.cpp:117-121 | the loop as written never ends when no line break follows "//", however many characters it reads |
| Lexer.CommentEndAgrees | src/frontend/Lexer.cpp:117-121 | the corrected loop stops where the loop as written does whenever a line break follows |
| Lexer.CommentAtEndOfFileEnds | src/frontend/Lexer.cpp:117-121 | with the corrected loop, a file ending in a comment without a line break yields EndOfFile |
| LexerRs.NewWithData | src/frontend/lexer.rs:149-162 | a token is made only from data that matches its kind, and keeps that kind, data and location |
| LexerRs.DataMatchesExact | src/frontend/lexer.rs:151-156 | Identifier, Number and String each take their own data and nothing else; every other kind takes none |
| LexerRs.Lexer.constructor | src/frontend/lexer.rs:358-366 | a new lexer is at line 1, column 0, with nothing read or pushed back |
| LexerRs.Lexer.GetChar | src/frontend/lexer.rs:373-397 | returns the pushed-back character if there is one, else the next one, or EOF at the end without moving; saves the old location and the character; a line break moves to the next line at column 0, a character one column on, EOF nowhere |
| LexerRs.Lexer.UngetChar | src/frontend/lexer.rs:403-416 | pushes back the last character read and restores its location; a second unget, or one with nothing read, is the source's panic and is excluded |
| LexerRs.Lexer.ReadComment | src/frontend/lexer.rs:203-206 | a "//" comment is read through its line break |
| LexerRs.Lexer.SkipOnce | src/frontend/lexer.rs:195-210 | one pass of the skipping loop reads what SkipPass says, including the lone-'/' push-back |
| LexerRs.Lexer.SkipBlank | src/frontend/lexer.rs:194-217 | the skipping loop stops on the first character Skip finds that is not whitespace, or on EOF |
| LexerRs.Lexer.ParseNumber | src/frontend/lexer.rs:418-442 | nothing for a non-digit; otherwise the decimal value of the whole digit run, with the character after it |
| LexerRs.Lexer.ReadWordChars | src/frontend/lexer.rs:246-262 | collects exactly the word's characters, up to the first that is not alphanumeric or '_' |
| LexerRs.Lexer.ReadWord | src/frontend/lexer.rs:242-275 | the word branch returns ScanWord's keyword or identifier token |
| LexerRs.Lexer.ReadNumber | src/frontend/lexer.rs:276-307 | the number branch returns ScanNumber's token or error |
| LexerRs.Lexer.ReadWidth | src/frontend/lexer.rs:281-302 | the width part returns ScanWidth's error or the token with that width |
| LexerRs.Lexer.ReadString | src/frontend/lexer.rs:307-344 | the string branch returns ScanString's text, invalid escape or end-of-file error |
| LexerRs.Lexer.GetToken | src/frontend/lexer.rs:190-353 | get_token's token or error is Scan's, and the reader and location stand after what Scan read |
| LexerRs.LeadingZeroIgnored | src/frontend/lexer.rs:418-442 | leading zeros do not change a literal's value |
| LexerRs.DecimalDigits | src/frontend/lexer.rs:418-442 | a number printed in decimal is all digits, and parse_number reads back exactly that number |
| LexerRs.NumberRoundTrip | src/frontend/lexer.rs:276-305 | a value below 2^64 printed without '#' lexes back to a Number with that value and no width, located at its first digit |
| LexerRs.WidthRoundTrip | src/frontend/lexer.rs:276-305 | value#width with 0 < width < 64 and a value that fits lexes back to a Number with that value and width |
| LexerRs.WordRoundTrip | src/frontend/lexer.rs:242-275 | a word lexes back to its keyword, or to an identifier carrying exactly its text |
| LexerRs.KeywordExact | src/frontend/lexer.rs:264-275 | the keywords are exactly the nine words of the language; any other word is an identifier |
| LexerRs.EscapedExact | src/frontend/lexer.rs:319-327 | the escapes are exactly \" \' \\ \n \r \t \0, each standing for its character |
| LexerRs.Escape | src/frontend/lexer.rs:307-344 | escaping a text never shortens it |
| LexerRs.EscapeRoundTrip | src/frontend/lexer.rs:310-340 | the string loop reads an escaped text back up to its closing quote |
| LexerRs.StringRoundTrip | src/frontend/lexer.rs:307-344 | a string literal printed with its escapes lexes back to a String token carrying the text |
| LexerRs.NoQuoteUnterminated | src/frontend/lexer.rs:310-341 | with no closing quote ahead the string never closes; with no backslash either it ends at the end of the file |
| LexerRs.ScannedTokensMatch | src/frontend/lexer.rs:149-162 | every token get_token yields carries data matching its kind, and each call moves on |
| LexerRs.SkipRules | src/frontend/lexer.rs:194-217 | whitespace is skipped, a "//" comment is skipped through its line break, and a comment running to the end of the file never ends |
| LexerRs.UnexpectedCharacterRule | src/frontend/lexer.rs:242-347 | a character fails as unexpected, at its own location, iff it is no punctuation, letter, '_', digit or quote |
| LexerRs.NoWidthScenario | src/frontend/lexer.rs:524-543 | "42#" fails with NumberLiteralNoWidth at (1, 1) |
| LexerRs.WidthZeroScenario | src/frontend/lexer.rs:545-564 | "42#0" fails with NumberLiteralWidthZero |
| LexerRs.WidthTooBigScenario | src/frontend/lexer.rs:566-585 | "42#70" fails with NumberLiteralWidthTooBig |
| LexerRs.ValueTooBigScenario | src/frontend/lexer.rs:587-606 | "256#8" fails with NumberLiteralValueTooBig |
| LexerRs.OverflowScenario | src/frontend/lexer.rs:608-621 | "18446744073709551616" overflows u64, which panics |
| LexerRs.InvalidEscapeScenario | src/frontend/lexer.rs:683-703 | "\"Bad: \\o/" fails with InvalidEscape('o') at (1, 1) |
| LexerRs.UnterminatedScenario | src/frontend/lexer.rs:705-724 | a string with no closing quote fails with UnexpectedEndOfFile at (1, 1) |
| LexerRs.UnexpectedCharacterScenario | src/frontend/lexer.rs:726-750 | "jane?doe" gives the identifier "jane", then UnexpectedCharacter('?') at (1, 5) |
| LexerRs.SlashQuirk | src/frontend/lexer.rs:198-210 | a '/' that starts no comment is dropped and the character after it is read twice: "/ab" is the identifier "aab" |
| Parser.ParseTokens | src/frontend/Parser.cpp:321-331 | parse succeeds only when the blocks are followed by EndOfFile, and its tree holds exactly the parsed blocks; a lexer error before the first token and a trailing token are the errors |
| Parser.BlockAt | src/frontend/Parser.cpp:295-309 | a block consumes at least one token and leaves the parser ready |
| Parser.BlocksAt | src/frontend/Parser.cpp:311-319 | the block loop stops at the first lookahead that is not 'block' |
| Parser.Parser.constructor | src/frontend/Parser.cpp:8-11 | a new parser has no lookahead yet |
| Parser.Parser.ReadLookahead | src/frontend/Parser.cpp:13-15 | the lexer's next token becomes the lookahead, or the lexer's error is thrown on |
| Parser.Parser.Match | src/frontend/Parser.cpp:17-60 | returns the lookahead and moves on when it has the expected type, and otherwise the "Expected" error; agrees with MatchAt |
| Parser.Parser.ParseIdentifier | src/frontend/Parser.cpp:62-66 | agrees with IdentifierAt on result and position |
| Parser.Parser.ParseNumber | src/frontend/Parser.cpp:68-72 | agrees with NumberAt on result and position |
| Parser.Parser.ParseSubscript | src/frontend/Parser.cpp:160-176 | agrees with SubscriptAt: an index and an optional end index |
| Parser.Parser.ParseBehaviourIdentifier | src/frontend/Parser.cpp:178-196 | agrees with BehaviourIdentifierAt: the property, then the subscript, each optional |
| Parser.Parser.ParsePrimaryExpression | src/frontend/Parser.cpp:74-98 | agrees with PrimaryAt: a parenthesised expression, a number or a behaviour identifier |
| Parser.Parser.ParseUnaryExpression | src/frontend/Parser.cpp:100-112 | agrees with UnaryAt |
| Parser.Parser.ParseBitwiseAndExpression | src/frontend/Parser.cpp:114-126 | agrees with AndAt, building a left-leaning tree |
| Parser.Parser.ParseBitwiseXorExpression | src/frontend/Parser.cpp:128-140 | agrees with XorAt |
| Parser.Parser.ParseBitwiseOrExpression | src/frontend/Parser.cpp:142-154 | agrees with OrAt |
| Parser.Parser.ParseExpression | src/frontend/Parser.cpp:156-158 | agrees with ExpressionAt |
| Parser.Parser.ParseBehaviourStatement | src/frontend/Parser.cpp:198-208 | agrees with StatementAt: target, '=', expression, ';' |
| Parser.Parser.ParseBehaviourStatements | src/frontend/Parser.cpp:210-218 | agrees with StatementsAt: statements while the lookahead is an identifier |
| Parser.Parser.ParseIdentifierList | src/frontend/Parser.cpp:220-232 | agrees with IdentifierListAt: at least one identifier, comma separated, in source order |
| Parser.Parser.ParseTypeSpecifier | src/frontend/Parser.cpp:234-254 | agrees with TypeSpecifierAt: in, out or block with its name |
| Parser.Parser.ParseType | src/frontend/Parser.cpp:256-270 | agrees with TypeAt: a specifier and an optional bracketed width |
| Parser.Parser.ParseDeclaration | src/frontend/Parser.cpp:272-280 | agrees with DeclarationAt |
| Parser.Parser.ParseDeclarations | src/frontend/Parser.cpp:282-293 | agrees with DeclarationsAt: declarations while the lookahead is in, out or block |
| Parser.Parser.ParseBlock | src/frontend/Parser.cpp:295-309 | agrees with BlockAt |
| Parser.Parser.ParseBlocks | src/frontend/Parser.cpp:311-319 | agrees with BlocksAt |
| Parser.Parser.Parse | src/frontend/Parser.cpp:321-331 | a fresh parser's parse returns exactly ParseTokens of the token stream |
| ParserPrinter.ExpressionRoundTrip | src/frontend/Parser.cpp:74-158 | the printed tokens of any expression parse back to the same tree |
| ParserPrinter.AndGroupsLeft | src/frontend/Parser.cpp:114-126 | `a & b & c` groups to the left |
| ParserPrinter.AndBindsTighterThanOr | src/frontend/Parser.cpp:114-154 | `a \| b & c` binds the '&' first |
| ParserPrinter.XorBindsTighterThanOr | src/frontend/Parser.cpp:128-154 | `a ^ b \| c` binds the '^' first |
| ParserPrinter.NotBindsTightest | src/frontend/Parser.cpp:100-126 | `~a & b` negates only a |
| ParserPrinter.ParenthesesGroup | src/frontend/Parser.cpp:74-98 | parentheses override precedence and leave no node of their own |
| ParserPrinter.SubscriptRoundTrip | src/frontend/Parser.cpp:160-176 | a printed subscript parses back |
| ParserPrinter.BehaviourIdentifierRoundTrip | src/frontend/Parser.cpp:178-196 | a printed behaviour identifier parses back |
| ParserPrinter.StatementRoundTrip | src/frontend/Parser.cpp:198-208 | a printed statement parses back |
| ParserPrinter.StatementsRoundTrip | src/frontend/Parser.cpp:210-218 | a printed statement list parses back when no identifier follows it |
| ParserPrinter.TypeRoundTrip | src/frontend/Parser.cpp:234-270 | a printed type parses back |
| ParserPrinter.IdentifierListRoundTrip | src/frontend/Parser.cpp:220-232 | a printed identifier list parses back when no comma follows it |
| ParserPrinter.DeclarationRoundTrip | src/frontend/Parser.cpp:272-280 | a printed declaration parses back |
| ParserPrinter.DeclarationsRoundTrip | src/frontend/Parser.cpp:282-293 | a printed declaration list parses back when no declaration keyword follows it |
| ParserPrinter.BlockRoundTrip | src/frontend/Parser.cpp:295-309 | a printed block (declarations, then statements, then '}') parses back |
| ParserPrinter.BlocksRoundTrip | src/frontend/Parser.cpp:311-319 | a printed block list parses back when no 'block' follows it |
| ParserPrinter.RootRoundTrip | src/frontend/Parser.cpp:321-331 | parsing the printed tokens of a file, ending in EndOfFile, gives the file back |
| ParserPrinter.PrintParsedRoundTrip | src/frontend/Parser.cpp:321-331 | every successfully parsed file can be printed, and its print parses to the same tree |
| Symbols.IndexedMeaning | src/frontend/SymbolTable.cpp:14-22 | the ordered symbol list and the name map agree: same names, each listed symbol is the map's entry, no name listed twice |
| Symbols.IndexedMembers | src/frontend/SymbolTable.cpp:76-78 | the ordered list holds exactly the symbols of the map |
| Symbols.SymbolTable.constructor | src/frontend/SymbolTable.cpp:9-12 | a new table is empty and has the given parent |
| Symbols.SymbolTable.Add | src/frontend/SymbolTable.cpp:14-22 | succeeds iff the name is not yet declared in this table; then the symbol is mapped and appended in order, and otherwise nothing changes |
| Symbols.SymbolTable.AddType | src/frontend/SymbolTable.cpp:24-26 | succeeds iff the block name is new; an existing entry is kept |
| Symbols.SymbolTable.SetSignal | src/frontend/IntermediateGenerator.cpp:159-181 | records the first signal number allocated for a symbol |
| Symbols.SymbolTable.Find | src/frontend/SymbolTable.cpp:28-36 | finds a name iff it is declared in this table, giving its symbol |
| Symbols.SymbolTable.FindRecursive | src/frontend/SymbolTable.cpp:38-50 | looks in this table, then in the parent only; found iff declared in one of the two |
| Symbols.SymbolTable.FindType | src/frontend/SymbolTable.cpp:52-60 | finds a block name iff it is registered in this table |
| Symbols.SymbolTable.FindTypeRecursive | src/frontend/SymbolTable.cpp:62-74 | looks up a block name here, then in the parent only |
| Symbols.SymbolTable.GetSymbols | src/frontend/SymbolTable.cpp:76-78 | the symbols in declaration order, exactly those of the table |
| SymbolTableRs.IndexedDistinct | src/frontend/symbol_table.rs:33-44 | an indexed table declares each name once |
| SymbolTableRs.IndexedPush | src/frontend/symbol_table.rs:33-44 | appending a symbol under a new name, indexed at the end, keeps the table indexed |
| SymbolTableRs.SymbolTable.constructor | src/frontend/symbol_table.rs:26-31 | a new table is empty |
| SymbolTableRs.SymbolTable.Add | src/frontend/symbol_table.rs:33-44 | fails with SymbolExists iff the name is taken, leaving the table unchanged; otherwise appends the symbol and indexes its position, so that find gives it and every other name is unaffected |
| SymbolTableRs.SymbolTable.Find | src/frontend/symbol_table.rs:46-49 | finds a name iff some symbol has it, and returns that symbol |
| SymbolTableRs.SymbolTable.FindMut | src/frontend/symbol_table.rs:51-57 | gives the position of the same symbol Find returns |
| SymbolTableRs.SymbolTable.Iter | src/frontend/symbol_table.rs:59-61 | the symbols in declaration order, one per name |
| SemanticAnalyzer.ScopeOf | src/frontend/SymbolTable.cpp:38-50 | the value snapshot of a table answers every lookup as FindRecursive does |
| SemanticAnalyzer.AnalyzeSubscript | src/frontend/SemanticAnalyzer.cpp:78-96 | succeeds iff there is no end index or it does not exceed the start; the end defaults to the start |
| SemanticAnalyzer.ResolveIdentifier | src/frontend/SemanticAnalyzer.cpp:98-149 | a signal of this block is read if it is an input and written otherwise; a property of a nested block instance is written if it is the block's input and read if its output; a block instance alone is no signal |
| SemanticAnalyzer.AnalyzeBehaviourIdentifier | src/frontend/SemanticAnalyzer.cpp:98-169 | succeeds iff the identifier resolves and its subscript is valid with a start inside the signal; the result is at least one bit and lies within the signal, the whole signal without a subscript |
| SemanticAnalyzer.AnalyzeExpression | src/frontend/SemanticAnalyzer.cpp:12-76 | a binary expression succeeds iff both operands do with equal widths, and has the left operand's type; NOT keeps its operand's type; a variable must be readable; a constant fails iff its width is 0 and is otherwise read with that width |
| SemanticAnalyzer.AnalyzeBehaviourStatement | src/frontend/SemanticAnalyzer.cpp:171-189 | succeeds iff the target is writable, the source readable and both equally wide |
| SemanticAnalyzer.TypeIn | src/frontend/SemanticAnalyzer.cpp:200-245 | against a map of visible block types: succeeds iff a block type names a registered block and a given width is not 0; the width defaults to 1 and the kind follows the specifier |
| SemanticAnalyzer.VisibleTypes | src/frontend/SymbolTable.cpp:62-75 | the map of visible block types answers every lookup as findTypeRecursive does: the table's own entry first, then the parent's |
| SemanticAnalyzer.AnalyzeType | src/frontend/SemanticAnalyzer.cpp:200-245 | succeeds iff a block type names a known block and a given width is not 0; the width defaults to 1 and the kind follows the specifier |
| SemanticAnalyzer.DeclaredSymbols | src/frontend/SemanticAnalyzer.cpp:247-253 | one symbol per identifier, all with the declaration's type |
| SemanticAnalyzer.AnalyzeDeclarationIdentifier | src/frontend/SemanticAnalyzer.cpp:191-198 | declares the identifier iff it is not yet declared in this table, else the duplicate-declaration error |
| SemanticAnalyzer.AnalyzeDeclaration | src/frontend/SemanticAnalyzer.cpp:247-253 | succeeds iff the type is valid, the identifiers are distinct and none is declared yet; the new symbols follow the old ones in source order |
| SemanticAnalyzer.DeclareIdentifiers | src/frontend/SemanticAnalyzer.cpp:250-252 | the identifier loop stops at the first name already declared, and otherwise appends all of them |
| SemanticAnalyzer.DeclarationsValidMeaning | src/frontend/SemanticAnalyzer.cpp:247-264 | checking the declarations one after another, as the loop does, accepts exactly when every type is valid and no name is declared twice in the block |
| SemanticAnalyzer.IndexedMapOf | src/frontend/SymbolTable.cpp:13-21 | a table's name-to-symbol map is determined by its symbols in declaration order |
| SemanticAnalyzer.AnalyzeDeclarations | src/frontend/SemanticAnalyzer.cpp:262-264 | passes iff the declarations are valid (every type valid, no name declared twice); the table then lists exactly the symbols they declare, in source order, at least one bit wide and referring only to registered blocks |
| SemanticAnalyzer.FirstOccurrencesMeaning | src/frontend/SemanticAnalyzer.cpp:256-258 | every block name is registered and refers to the first block of that name, since addType keeps an existing entry |
| SemanticAnalyzer.AcceptedWhenChecked | src/frontend/SemanticAnalyzer.cpp:255-269 | once the declarations are valid and have built the table, the block is accepted iff its statements check against that table |
| SemanticAnalyzer.AnalyzeBlock | src/frontend/SemanticAnalyzer.cpp:255-269 | registers the block name unless already taken; succeeds iff the block is accepted (valid declarations and every statement checked against the table they build); the fresh table under the root then lists exactly the declared symbols |
| SemanticAnalyzer.CheckStatements | src/frontend/SemanticAnalyzer.cpp:266-268 | passes iff every statement of the block checks against its table, the empty root and the tables of the blocks so far |
| SemanticAnalyzer.AnalyzeStatements | src/frontend/SemanticAnalyzer.cpp:266-268 | passes iff every statement checks, and otherwise reports the first failing statement's error |
| SemanticAnalyzer.AllAnalysedMeaning | src/frontend/SemanticAnalyzer.cpp:271-276 | after analysis each block's table holds exactly its declarations and each block is checked against the blocks before it |
| SemanticAnalyzer.AnalyzeNextBlock | src/frontend/SemanticAnalyzer.cpp:273-275 | one turn of the block loop keeps the registered names and the analysed blocks in step, and succeeds iff the block is accepted against the names registered so far, its own included |
| SemanticAnalyzer.AnalyzeBlocks | src/frontend/SemanticAnalyzer.cpp:273-275 | on success every block is analysed and its table lists the symbols it declares; on failure the blocks before the stopping block were analysed and that block is not accepted |
| SemanticAnalyzer.Analyze | src/frontend/SemanticAnalyzer.cpp:271-276 | on success the root holds no signals and registers the first block of each name, and every block has its own fresh table under the root listing the symbols it declares and is checked; on failure the analysis stopped at the first block that is not accepted |
| Intermediate.NewStatement | src/shared/Intermediate.cpp:125-165 | fails iff the operation is unknown, a CONNECT or NOT is wider than one bit, or a MUX has 32 or more address lines; otherwise the slots are sized per operation (MUX: size address lines plus 2^size data lines) and all start at signal 0 |
| Intermediate.SetInput | src/shared/Intermediate.cpp:167-169 | inputs.at(index): an index out of range is the error; otherwise exactly that slot changes |
| Intermediate.SetOutput | src/shared/Intermediate.cpp:171-173 | outputs.at(index): an index out of range is the error; otherwise exactly that slot changes |
| Intermediate.Block.constructor | src/shared/Intermediate.cpp:13-16 | a new block has no pins, nested blocks or statements, and id 0 is the next free one |
| Intermediate.Block.FromParts | src/shared/Intermediate.cpp:18-21 | a block read from a file has the given parts, with the ids after its pins free |
| Intermediate.Block.AllocateSignals | src/shared/Intermediate.cpp:23-27 | reserves count consecutive fresh ids and returns the first |
| Intermediate.Block.AllocateInputSignals | src/shared/Intermediate.cpp:29-39 | fails iff outputs, nested blocks or statements already exist, changing nothing; otherwise extends the inputs by count fresh ids |
| Intermediate.Block.AllocateOutputSignals | src/shared/Intermediate.cpp:41-51 | fails iff nested blocks or statements already exist, changing nothing; otherwise extends the outputs by count fresh ids |
| Intermediate.Block.AddBlock | src/shared/Intermediate.cpp:53-64 | fails iff statements already exist; otherwise appends the nested block and reserves ids for all of its pins |
| Intermediate.Block.AddStatement | src/shared/Intermediate.cpp:66-68 | appends the statement |
| IntermediateRs.NewStatement | src/shared/intermediate.rs:119-146 | fails with StatementSizeInvalid iff the operation is Connect or NOT with a size other than 1; otherwise the slots are sized per operation and start at 0 |
| IntermediateRs.NewStatementAgrees | src/shared/intermediate.rs:119-146 | the Rust and C++ constructors accept the same operations and sizes and give the same slots |
| IntermediateRs.PowersAgree | src/shared/intermediate.rs:137 | 1 << size in the Rust constructor and in the C++ one count the same MUX data lines |
| IntermediateRs.SetInput | src/shared/intermediate.rs:148-150 | overwrites exactly one input slot |
| IntermediateRs.SetOutput | src/shared/intermediate.rs:152-154 | overwrites exactly one output slot |
| IntermediateRs.IntermediateBlock.constructor | src/shared/intermediate.rs:57-66 | a new block is empty, with signal id 0 next |
| IntermediateRs.IntermediateBlock.AllocateSignals | src/shared/intermediate.rs:68-72 | reserves count fresh ids and returns the first |
| IntermediateRs.IntermediateBlock.AllocateInputSignals | src/shared/intermediate.rs:74-84 | NoMoreInputSignals iff outputs, blocks or statements exist; otherwise extends the inputs |
| IntermediateRs.IntermediateBlock.AllocateOutputSignals | src/shared/intermediate.rs:86-96 | NoMoreOutputSignals iff blocks or statements exist; otherwise extends the outputs |
| IntermediateRs.IntermediateBlock.AddBlock | src/shared/intermediate.rs:98-111 | NoMoreBlocks iff statements exist; otherwise appends the block and reserves its pins |
| IntermediateRs.IntermediateBlock.AddStatement | src/shared/intermediate.rs:113-115 | appends the statement |
| IntermediateGenerator.GateConstructed | src/frontend/IntermediateGenerator.cpp:19-45 | each gate the generator emits is a two-input statement built by the constructor and the slot setters |
| IntermediateGenerator.UnaryConstructed | src/frontend/IntermediateGenerator.cpp:61-68 | each NOT and CONNECT is a one-input statement built the same way |
| IntermediateGenerator.SourceConstructed | src/frontend/IntermediateGenerator.cpp:77-88 | each constant bit is a CONST0 or CONST1 statement built the same way |
| IntermediateGenerator.IdentifierSignal | src/frontend/IntermediateGenerator.cpp:107-128 | the first id an identifier names is at least its symbol's signal plus the subscript's low index, and is that signal for a plain name |
| IntermediateGenerator.IdentifierBelow | src/frontend/IntermediateGenerator.cpp:107-128 | the bits a checked identifier names lie below the scope's pin limit |
| IntermediateGenerator.LowerExpressionSound | src/frontend/IntermediateGenerator.cpp:10-105 | a lowered expression allocates one fresh id per statement; a variable emits nothing; any other expression's value occupies the last ids allocated |
| IntermediateGenerator.LowerStatementSound | src/frontend/IntermediateGenerator.cpp:130-144 | a lowered statement drives each bit of its target, whose ids are pins, through one CONNECT per bit |
| IntermediateGenerator.LowerStatementsSound | src/frontend/IntermediateGenerator.cpp:146-150 | every statement emitted for a block's behaviour writes a fresh id, except the CONNECTs, which drive pins |
| IntermediateGenerator.LowerStatementsStep | src/frontend/IntermediateGenerator.cpp:146-150 | lowering one more statement appends its lowering, starting at the next free id |
| IntermediateGenerator.ConnectsSound | src/frontend/IntermediateGenerator.cpp:138-143 | the CONNECTs of an assignment write only the target pins, after the fresh ids of its expression |
| IntermediateGenerator.EmitGates | src/frontend/IntermediateGenerator.cpp:21-27 | one gate per bit i, combining a+i and b+i into out+i |
| IntermediateGenerator.EmitUnary | src/frontend/IntermediateGenerator.cpp:63-68 | one NOT or CONNECT per bit i, from a+i to out+i |
| IntermediateGenerator.GenerateConstant | src/frontend/IntermediateGenerator.cpp:77-88 | allocates width fresh ids and drives bit i from CONST1 iff bit i of the value is set |
| IntermediateGenerator.GenerateBinaryExpression | src/frontend/IntermediateGenerator.cpp:10-52 | emits exactly the lowering of the expression: both operands, then one gate per bit |
| IntermediateGenerator.GenerateUnaryExpression | src/frontend/IntermediateGenerator.cpp:54-75 | emits the operand, then one NOT per bit |
| IntermediateGenerator.GenerateExpression | src/frontend/IntermediateGenerator.cpp:90-105 | emits exactly LowerExpression's statements and returns the lowest id of the value |
| IntermediateGenerator.GenerateBehaviourStatement | src/frontend/IntermediateGenerator.cpp:130-144 | emits the expression, then one CONNECT per bit into the target |
| IntermediateGenerator.GenerateBehaviourStatements | src/frontend/IntermediateGenerator.cpp:146-150 | emits the statements in order |
| IntermediateGenerator.PassPinsMeaning | src/frontend/IntermediateGenerator.cpp:159-181 | after a pass every selected symbol maps to the first id of its range and every other name keeps its entry |
| IntermediateGenerator.LayoutMeaning | src/frontend/IntermediateGenerator.cpp:152-188 | inputs come first, then outputs, then the pins of nested instances, each in declaration order |
| IntermediateGenerator.LayoutDisjoint | src/frontend/IntermediateGenerator.cpp:159-181 | two symbols of the same pass get disjoint id ranges, the earlier first |
| IntermediateGenerator.LayoutAt | src/frontend/IntermediateGenerator.cpp:159-181 | the id the passes record for symbol i, and that its range ends within its pass |
| IntermediateGenerator.Instances | src/frontend/IntermediateGenerator.cpp:175-181 | the instantiated blocks, in declaration order, hold as many pins as the instance pass reserves |
| IntermediateGenerator.AssignInputs | src/frontend/IntermediateGenerator.cpp:159-165 | the first loop gives every input the next input ids |
| IntermediateGenerator.AssignOutputs | src/frontend/IntermediateGenerator.cpp:167-173 | the second loop gives every output the next ids |
| IntermediateGenerator.AssignInstances | src/frontend/IntermediateGenerator.cpp:175-181 | the third loop adds each instantiated block in order and gives it its pins |
| IntermediateGenerator.AssignPins | src/frontend/IntermediateGenerator.cpp:152-181 | the three passes record BlockLayout's ids in the table and build a block with those pins and instances |
| IntermediateGenerator.BlockSound | src/frontend/IntermediateGenerator.cpp:152-188 | a generated block has its name, its inputs then outputs as pins, its instances' pins after them, and every statement writing a fresh id or driving a pin |
| IntermediateGenerator.BlockPins | src/frontend/IntermediateGenerator.cpp:183-187 | in a generable block every identifier reached has ids, the scope is sane and the statements are checked, so lowering applies |
| IntermediateGenerator.GenerateBlock | src/frontend/IntermediateGenerator.cpp:152-188 | the generated block is BlockValue and the table records BlockLayout's ids |
| IntermediateGenerator.AnalysedGenerable | src/frontend/IntermediateGenerator.cpp:190-199 | after a successful analysis every block can be generated, given narrow constants and no forward instantiation |
| IntermediateGenerator.GeneratedStep | src/frontend/IntermediateGenerator.cpp:194-196 | generating one more block appends the block generated against those before it |
| IntermediateGenerator.GenerateNext | src/frontend/IntermediateGenerator.cpp:194-196 | one turn of generateBlocks generates block i into its table and changes no other table |
| IntermediateGenerator.Generated | src/frontend/IntermediateGenerator.cpp:190-199 | the first i generated blocks, each fitting its table |
| IntermediateGenerator.GenerateBlockAt | src/frontend/IntermediateGenerator.cpp:194-196 | generates block i into its table and appends it to the blocks before it |
| IntermediateGenerator.Generate | src/frontend/IntermediateGenerator.cpp:190-203 | the file holds the blocks Generated describes, and every table records the ids of its symbols |
| IntermediateGenerator.HalfAdderLayout | src/frontend/IntermediateGenerator.cpp:152-181 | in `block half_adder { in a; in b; out s; out c; ... }` the pins are a 0, b 1, s 2, c 3, with no instances |
| IntermediateGenerator.HalfAdderGate | src/frontend/IntermediateGenerator.cpp:10-52 | statement k of the half adder, `t = a OP b;`, passes the checks and lowers to the gate into the next id, then a CONNECT from it to the target 2 + k |
| IntermediateGenerator.LowerPair | src/frontend/IntermediateGenerator.cpp:146-150 | two checked statements lower to the first one's code followed by the second one's, the second starting at the id the first left free |
| IntermediateGenerator.HalfAdderChecked | src/frontend/SemanticAnalyzer.cpp:171-189 | both statements of the half adder pass the semantic checks and use only narrow constants |
| IntermediateGenerator.HalfAdderLowered | src/frontend/IntermediateGenerator.cpp:130-150 | `s = a ^ b; c = a & b;` lowers to XOR(0,1)->4, CONNECT 4->2, AND(0,1)->5, CONNECT 5->3 |
| BufferHelper.Read8 | src/shared/helper/BufferHelper.h:8-10 | the byte at the offset |
| BufferHelper.Read16Le | src/shared/helper/BufferHelper.h:12-15 | the value of the two bytes at the offset, least significant first |
| BufferHelper.Read16Be | src/shared/helper/BufferHelper.h:17-20 | the value of the two bytes at the offset, most significant first |
| BufferHelper.Read32Le | src/shared/helper/BufferHelper.h:22-27 | the value of the four bytes at the offset, least significant first |
| BufferHelper.Read32Be | src/shared/helper/BufferHelper.h:29-34 | the value of the four bytes at the offset, most significant first |
| BufferHelper.Read64Le | src/shared/helper/BufferHelper.h:36-45 | the value of the eight bytes at the offset, least significant first |
| BufferHelper.Read64Be | src/shared/helper/BufferHelper.h:47-56 | the value of the eight bytes at the offset, most significant first |
| BufferHelper.Write8 | src/shared/helper/BufferHelper.h:58-60 | the byte at the offset becomes the value; no other byte changes |
| BufferHelper.Write16Le | src/shared/helper/BufferHelper.h:62-65 | the two bytes at the offset become the value, least significant first; no other byte changes |
| BufferHelper.Write32Le | src/shared/helper/BufferHelper.h:67-72 | the four bytes at the offset become the value, least significant first; no other byte changes |
| BufferHelper.Write64Le | src/shared/helper/BufferHelper.h:74-83 | the eight bytes at the offset become the value, least significant first; no other byte changes |
| BufferHelper.LeBytesAt | src/shared/helper/BufferHelper.h:62-83 | byte k of the encoding is bits 8k to 8k+7 of the value, as the writers shift them out |
| BufferHelper.LeValueOfLeBytes | src/shared/helper/BufferHelper.h:12-83 | decoding the n-byte encoding gives the value modulo 256^n |
| BufferHelper.LeRoundTrip | src/shared/helper/BufferHelper.h:12-83 | for a value that fits in n bytes, decoding its encoding gives it back |
| BufferHelper.LeBytesOfLeValue | src/shared/helper/BufferHelper.h:12-83 | encoding the decoded value of any byte sequence gives the same bytes |
| BufferHelper.ReadAfterWrite8 | src/shared/helper/BufferHelper.h:8-10 | read8 after write8 at the same offset gives the written byte |
| BufferHelper.ReadAfterWrite16 | src/shared/helper/BufferHelper.h:12-15 | read16le after write16le at the same offset gives the written value |
| BufferHelper.ReadAfterWrite32 | src/shared/helper/BufferHelper.h:22-27 | read32le after write32le at the same offset gives the written value |
| BufferHelper.ReadAfterWrite64 | src/shared/helper/BufferHelper.h:36-45 | read64le after write64le at the same offset gives the written value |
| IntermediateFile.BytesRoundTrip | src/shared/IntermediateFile.cpp:122-127 | the bytes a NUL-free string is written as decode back to the string |
| IntermediateFile.StringsBytesSize | src/shared/IntermediateFile.cpp:153-162 | the written strings take exactly the table's total size: each string's length plus one NUL |
| IntermediateFile.StringsBytesInjective | src/shared/IntermediateFile.cpp:122-127 | different string lists are written as different bytes |
| IntermediateFile.SplitMeaning | src/shared/IntermediateFile.cpp:138-148 | the strings cut at each NUL of a terminated buffer are written back as that buffer |
| IntermediateFile.SplitRoundTrip | src/shared/IntermediateFile.cpp:122-148 | what StringTable::write emits is terminated, and cutting it at each NUL gives the strings back |
| IntermediateFile.SplitUnique | src/shared/IntermediateFile.cpp:138-148 | the cut of a terminated buffer is the only string list written as that buffer |
| IntermediateFile.StringTable.constructor | src/shared/IntermediateFile.cpp:98-101 | an empty table of total size 0 |
| IntermediateFile.StringTable.Add | src/shared/IntermediateFile.cpp:108-120 | the size check fails first, then the count check, leaving the table unchanged; otherwise the string is appended, its index returned and the 32-bit total grown by its length plus one |
| IntermediateFile.CountNeverReached | src/shared/IntermediateFile.cpp:108-120 | while the total fits in 32 bits the count check cannot fire: the size check fails first |
| IntermediateFile.SplitStrings | src/shared/IntermediateFile.cpp:138-148 | the NUL scan of StringTable::read succeeds iff the buffer ends in a NUL, and then gives the strings written as that buffer |
| IntermediateFile.ReadersAgree | src/shared/IntermediateFile.cpp:37-53 | the file readers give the buffer helper's little-endian values |
| IntermediateFile.Read16Back | src/shared/IntermediateFile.cpp:37-41 | a 16-bit field written little-endian is read back |
| IntermediateFile.Read32Back | src/shared/IntermediateFile.cpp:43-47 | a 32-bit field written little-endian is read back |
| IntermediateFile.Read64Back | src/shared/IntermediateFile.cpp:49-57 | a 64-bit field written little-endian is read back |
| IntermediateFile.ReadIdsBack | src/shared/IntermediateFile.cpp:181-189 | a run of 32-bit signal ids is read back |
| IntermediateFile.StatementRoundTrip | src/shared/IntermediateFile.cpp:176-208 | a statement written by writeBlockStatement is read back by readBlockStatement, ending right after its record |
| IntermediateFile.StatementsRoundTrip | src/shared/IntermediateFile.cpp:176-208 | a run of written statements is read back in order |
| IntermediateFile.BlockRecordAsWritten | src/shared/IntermediateFile.cpp:235-259 | writeBlock as written fails only when the block count does not fit in 32 bits |
| IntermediateFile.BlockRecord | src/shared/IntermediateFile.cpp:235-259 | writeBlock with the statement guard testing the statement count fails iff either count does not fit, with the message of the first guard that fires |
| IntermediateFile.BlockRecordAgrees | src/shared/IntermediateFile.cpp:249-252 | where the statement count fits, the guard as written and the intended one give the same bytes |
| IntermediateFile.StatementCountTruncated | src/shared/IntermediateFile.cpp:249-252 | a block of 2^32 statements passes the guard as written and is recorded with a statement count of 0 |
| IntermediateFile.BlockRoundTrip | src/shared/IntermediateFile.cpp:210-259 | a block record is read back as readBlock rebuilds it: same name, pin counts and statements, no nested blocks |
| IntermediateFile.BlockRoundTripWith | src/shared/IntermediateFile.cpp:210-233 | the same, for any statement reader that reads back what writeBlockStatement writes |
| IntermediateFile.WriteBlocks | src/shared/IntermediateFile.cpp:274-284 | more than 2^32-1 blocks is the error; otherwise the count then each block's record, each name added to the table |
| IntermediateFile.BlocksBytesValue | src/shared/IntermediateFile.cpp:274-284 | the table ends up holding every block's name and block k is recorded with name index k |
| IntermediateFile.WriteFile | src/shared/IntermediateFile.cpp:319-344 | magic, version, the blocks, then the string table, with the table's offset patched into the header |
| IntermediateFile.ReadStringTable | src/shared/IntermediateFile.cpp:131-151 | a table read successfully holds NUL-free strings and ends within the data |
| IntermediateFile.ReadHeader | src/shared/IntermediateFile.cpp:286-304 | a header is accepted only when the data starts with the magic "HDLI", the version is exactly VERSION and the string table offset fits a signed 64-bit value; a wrong magic gives the magic-mismatch error and, after a right magic, a wrong version gives the version-mismatch error |
| IntermediateFile.ReadFileAsWritten | src/shared/IntermediateFile.cpp:286-317 | readFile as written: a header error is passed on, and a read succeeds only on a file with the right magic and version (FileAsWrittenUnreadable shows it then fails on every written file) |
| IntermediateFile.ReadFile | src/shared/IntermediateFile.cpp:286-317 | readFile with the blocks read from the end of the header: a header error is passed on, and a read succeeds only on a file with the right magic and version (FileRoundTrip gives every written file back) |
| IntermediateFile.TableBack | src/shared/IntermediateFile.cpp:122-151 | a table written by StringTable::write is read back whole |
| IntermediateFile.HeaderBack | src/shared/IntermediateFile.cpp:286-333 | the header writeFile emits passes readFile's magic and version checks and yields the table offset |
| IntermediateFile.WrittenFileSteps | src/shared/IntermediateFile.cpp:286-344 | on the bytes writeFile emits, the header, the string table and the block records are each read back |
| IntermediateFile.FileRoundTrip | src/shared/IntermediateFile.cpp:286-344 | a file written by writeFile and read with the seek back to the blocks gives back every block as readBlock builds it |
| IntermediateFile.FileAsWrittenUnreadable | src/shared/IntermediateFile.cpp:310-314 | readFile as written reads the block count at the end of the string table, so every written file fails with an end-of-file error |
| Linker.AbsorbMeaning | src/linker/Linker.cpp:9-21 | appending source blocks one by one with the name scan succeeds iff no source block's name occurs earlier in the combined list, and then gives target followed by source |
| Linker.AbsorbDuplicate | src/linker/Linker.cpp:12-16 | on failure the reported name is that of the first source block whose name occurs earlier |
| Linker.AbsorbConcat | src/linker/Linker.cpp:23-35 | linking two files in turn is linking their blocks at once, and the first collision ends it |
| Linker.FindName | src/linker/Linker.cpp:13-17 | the inner loop finds the name iff some block in the target already has it |
| Linker.DuplicateMessage | src/linker/Linker.cpp:15 | the message holds the prefix, the block's name and the closing quote |
| Linker.AllBlocksCount | src/linker/Linker.cpp:23-35 | the concatenated inputs hold as many blocks as the inputs together |
| Linker.LinkTwo | src/linker/Linker.cpp:9-21 | succeeds iff no source block's name is taken, with target then source; otherwise the error names the first clashing source block |
| Linker.Link | src/linker/Linker.cpp:23-35 | no input gives an empty file; otherwise the blocks of all files in order, or the error for the first block after the first file whose name is taken |
| Linker.LinkMeaning | src/linker/Linker.cpp:23-35 | the collision rule for several files, both directions |
| Linker.LinkedCount | src/linker/Linker.cpp:23-35 | a successful link holds exactly as many blocks as the inputs |
| LinkerRs.LinkTwo | src/linker/mod.rs:39-53 | link_two appends source blocks with the same collision rule as the C++ linker, reporting DuplicateBlock with the name |
| LinkerRs.LinkAll | src/linker/mod.rs:25-37 | link's loop over every input, starting from an empty list, is absorbing all the inputs' blocks at once |
| LinkerRs.Link | src/linker/mod.rs:25-37 | succeeds iff all block names of all inputs are distinct, with the blocks in order; otherwise DuplicateBlock names the first repeated name |
| LinkerRs.LinkMeaning | src/linker/mod.rs:25-53 | the collision rule for an empty start, both directions |
| LinkerRs.DistinctIsClashFree | src/linker/mod.rs:39-53 | clash-free from the start means all names are distinct |
| LogicSimulator.Circuit.constructor | src/backend/LogicSimulator/LogicSimulator.cpp:31-34 | a circuit with the given I/O counts, no signals and no components |
| LogicSimulator.Circuit.AllocateSignals | src/backend/LogicSimulator/LogicSimulator.cpp:36-40 | hands out count fresh ids and returns the first |
| LogicSimulator.Circuit.AddComponent | src/backend/LogicSimulator/LogicSimulator.cpp:42-44 | appends the component |
| LogicSimulator.ComponentTypeOf | src/backend/LogicSimulator/LogicSimulator.cpp:347-371 | an operation has a component iff it is one of CONNECT to NOT; MUX and unknown values have none |
| LogicSimulator.ShiftedMeaning | src/backend/LogicSimulator/LogicSimulator.cpp:375-381 | each id of a statement is moved up by the local base |
| LogicSimulator.TranslateStatement | src/backend/LogicSimulator/LogicSimulator.cpp:344-384 | the switch and the two loops give the component Translate describes, or the unsupported-operation error |
| LogicSimulator.TranslateAllMeaning | src/backend/LogicSimulator/LogicSimulator.cpp:344-384 | the statements translate iff every operation has a component, one component per statement in order; otherwise the error names the first statement without one |
| LogicSimulator.TranslateAllStops | src/backend/LogicSimulator/LogicSimulator.cpp:369-370 | once a statement has no component the translation fails with its message, whatever follows |
| LogicSimulator.ConnectRowMeaning | src/backend/LogicSimulator/LogicSimulator.cpp:301-308 | connection i of the pin row connects from+i to to+i |
| LogicSimulator.IdBoundMeaning | src/backend/LogicSimulator/LogicSimulator.cpp:329-339 | the raised count is at least the start, above every id, and the least such |
| LogicSimulator.StatementsBoundMeaning | src/backend/LogicSimulator/LogicSimulator.cpp:328-340 | the local count covers every id of every statement, and is the start or one more than some id |
| LogicSimulator.LocalCountCovers | src/backend/LogicSimulator/LogicSimulator.cpp:296-342 | the local range holds the pins, the nested pins and every id the statements name |
| LogicSimulator.NestedBasesMeaning | src/backend/LogicSimulator/LogicSimulator.cpp:287-294 | nested block i starts right after the ids of the blocks before it |
| LogicSimulator.ElaborateNestedStops | src/backend/LogicSimulator/LogicSimulator.cpp:290-294 | once a nested block fails, the whole block fails with its message |
| LogicSimulator.ElaborateJoins | src/backend/LogicSimulator/LogicSimulator.cpp:282-385 | a block elaborates iff its nested blocks and its local components do, giving the nested instances followed by the local components |
| LogicSimulator.NestedRangesDisjoint | src/backend/LogicSimulator/LogicSimulator.cpp:287-294 | distinct nested instances get disjoint id ranges, in order |
| LogicSimulator.ElaborateWithin | src/backend/LogicSimulator/LogicSimulator.cpp:282-385 | every component of an elaborated block reads and drives only the ids handed out to that block: no instance touches another's ids |
| LogicSimulator.ElaborateNestedWithin | src/backend/LogicSimulator/LogicSimulator.cpp:290-294 | the nested instances stay within the nested ids |
| LogicSimulator.EmitConnects | src/backend/LogicSimulator/LogicSimulator.cpp:301-308 | appends one connection per public pin, from the pin to its local copy |
| LogicSimulator.EmitNestedConnects | src/backend/LogicSimulator/LogicSimulator.cpp:311-325 | appends one connection per pin of each nested block, to the next local id, and counts them |
| LogicSimulator.RaiseCount | src/backend/LogicSimulator/LogicSimulator.cpp:329-339 | the count raised past every id of one list |
| LogicSimulator.LocalSignalCount | src/backend/LogicSimulator/LogicSimulator.cpp:328-340 | the count raised past every id of every statement |
| LogicSimulator.EmitStatements | src/backend/LogicSimulator/LogicSimulator.cpp:344-384 | passes iff every statement translates, appending their components; otherwise the first unsupported operation's error |
| LogicSimulator.GenerateNestedBlock | src/backend/LogicSimulator/LogicSimulator.cpp:290-294 | one turn of the nested loop elaborates block i from the next free id |
| LogicSimulator.GenerateNestedBlocks | src/backend/LogicSimulator/LogicSimulator.cpp:287-294 | elaborates the nested blocks in order and records where each starts |
| LogicSimulator.GenerateLocal | src/backend/LogicSimulator/LogicSimulator.cpp:296-384 | emits the pin connections, allocates the local range and emits the statements' components |
| LogicSimulator.GenerateBlock | src/backend/LogicSimulator/LogicSimulator.cpp:282-385 | appends exactly Elaborate's components and allocates exactly the block's size, or fails with its error |
| LogicSimulator.LastMain | src/backend/LogicSimulator/LogicSimulator.cpp:388-394 | the index of the last block named main, or none |
| LogicSimulator.GenerateCircuit | src/backend/LogicSimulator/LogicSimulator.cpp:387-403 | no main block is the error; otherwise a fresh circuit with main's I/O counts holding main's elaboration from id 0 |
| HashTable.KeyIndex | src/shared/helper/hashtable.c:62-162 | the walk down a chain that set, has, get and remove make: the first item with the key, or none iff no item has it |
| HashTable.LookupAt | src/shared/helper/hashtable.c:118-134 | in a chain of distinct keys each item is the one a lookup of its key finds |
| HashTable.FlattenAt | src/shared/helper/hashtable.c:164-205 | item j of bucket b comes after the items of the buckets before it, in the iteration order |
| HashTable.FlattenUpdate | src/shared/helper/hashtable.c:62-98 | replacing one bucket changes the item count by the difference of the chain lengths |
| HashTable.EmptyChains | src/shared/helper/hashtable.c:8-19 | a bucket array of empty chains holds no items |
| HashTable.UpdatedChain | src/shared/helper/hashtable.c:62-98 | what set does to a chain keeps it well formed, stores the value under the key and leaves every other key alone, growing the chain iff the key was absent |
| HashTable.RemovedChain | src/shared/helper/hashtable.c:136-162 | what remove does to a chain keeps it well formed, drops the key and leaves every other key alone, shrinking it iff the key was present |
| HashTable.Table.constructor | src/shared/helper/hashtable.c:8-37 | hashtable_create and hashtable_create_sized: every bucket empty, size 0, no key found |
| HashTable.Table.ItemsFound | src/shared/helper/hashtable.c:118-134 | every item in iteration order is what a lookup of its key finds |
| HashTable.Table.Set | src/shared/helper/hashtable.c:62-98 | a hash out of range changes nothing; otherwise the key maps to the value, other keys keep theirs, and the size grows iff the key was new |
| HashTable.Table.SetStep | src/shared/helper/hashtable.c:62-98 | the chain set writes into the key's bucket keeps the table valid and answers lookups as a map updated at the key |
| HashTable.Table.Has | src/shared/helper/hashtable.c:100-116 | true iff a lookup of the key finds something |
| HashTable.Table.Get | src/shared/helper/hashtable.c:118-134 | the value stored under the key, or none |
| HashTable.Table.Remove | src/shared/helper/hashtable.c:136-162 | true and one item fewer iff the key was present; afterwards the key is absent and every other key keeps its value |
| HashTable.Table.RemoveStep | src/shared/helper/hashtable.c:136-162 | the chain remove leaves in the key's bucket keeps the table valid and answers lookups as a map without the key |
| HashTable.Iterator.constructor | src/shared/helper/hashtable.c:164-181 | hashtable_iterator_init: positioned at the first item in iteration order |
| HashTable.Iterator.Skip | src/shared/helper/hashtable.c:171-180 | the empty-bucket loop moves to the next non-empty bucket or past the last, without changing the position |
| HashTable.Iterator.Next | src/shared/helper/hashtable.c:183-205 | moves to the following item, and does nothing once finished |
| HashTable.Iterator.Finished | src/shared/helper/hashtable.c:207-209 | true iff every item has been visited |
| HashTable.Iterator.Value | src/shared/helper/hashtable.c:211-217 | the value of the current item, or none once finished |
| HashTable.PositionBound | src/shared/helper/hashtable.c:164-205 | the iterator's position never passes the table's items |
| HashTable.XorRange | src/shared/helper/hashtable.c:226-230 | the exclusive or of two uint32_t values is a uint32_t |
| HashTable.HashRange | src/shared/helper/hashtable.c:219-234 | every mixing step and the final avalanche of the one-at-a-time hash stay below 2^32 |
| HashTable.HashString | src/shared/helper/hashtable.c:219-234 | the loop computes the one-at-a-time hash of the string reduced to a bucket index below the bucket count |
| Driver.FindLast | src/main.cpp:57 | find_last_of and strrchr: the last index holding one of the characters, or none iff no index holds one |
| Driver.Clamp | src/main.cpp:52-54 | within the bounds the value itself; below them the minimum; above them the maximum |
| Driver.ClampIdempotent | src/main.c:73-75 | clamping twice is clamping once |
| Driver.Basename | src/main.cpp:56-63 | the longest suffix of the path holding no '/' or '\\' |
| Driver.ExtensionDot | src/main.cpp:75-82 | a dot starts an extension iff it is the last dot, not first, and not before the last separator |
| Driver.NoExtension | src/main.cpp:78-80 | the three early-return conditions of getExtension mean the path has no extension |
| Driver.Extension | src/main.cpp:75-82 | the text after the dot that starts the extension, or the empty string when there is none |
| Driver.GetExtension | src/main.cpp:75-82 | with '/' and '\\' as separators, the text after the dot that starts the extension, or "" when there is none |
| DriverC.GetExtension | src/main.c:77-84 | the same with '/' as the only separator |
| DriverC.BackslashNotSeparator | src/main.c:77-84 | "dir.v\\file" has the extension "v\\file" for get_extension and none for getExtension |
| Driver.ExtensionUnique | src/main.cpp:75-82 | at most one position starts an extension |
| Driver.GetExtensionDocumented | src/main.cpp:65-74 | "file.ext" gives "ext"; "file", "path.ext/file" and ".file" give "" |
| Driver.ExtensionPlain | src/main.cpp:75-82 | an extension holds no dot and no separator |
| Driver.Stem | src/main.cpp:84-93 | the path is its stem, a dot and its extension, or the path itself when it has none |
| Driver.ReplaceExtension | src/main.cpp:84-93 | the stem, a dot and the new extension |
| Driver.ReplacedExtensionReads | src/main.cpp:75-93 | a replaced extension reads back and keeps the stem, unless nothing is left before the dot |
| Driver.ReplaceExtensionTwice | src/main.cpp:84-93 | replacing an extension again with the same one changes nothing |
| Driver.FirstMatch | src/main.cpp:142-150 | some row matches iff a row names the extension or "*"; the result is the type name of the first such row, no earlier row matching |
| Driver.IndexOf | src/main.cpp:153-158 | the first index holding the name, or none iff no entry holds it |
| Driver.TablesResolve | src/main.cpp:32-40 | "hdl" resolves to type 0 and every other extension to type 1 through the "*" row |
| Driver.DetectInputFileType | src/main.cpp:133-160 | an explicit type is kept; otherwise the type detected from the extension |
| Driver.SearchExtensions | src/main.cpp:142-150 | the loop over the extension table finds the first matching row |
| Driver.SearchTypes | src/main.cpp:153-158 | the loop over the type table finds the type's index |
| DriverC.InputFiles.constructor | src/main.c:122-158 | an empty list of input files |
| DriverC.InputFiles.AddInputFile | src/main.c:122-158 | always returns 0 and appends the file with its given type or, for -1, the detected one |

## Left out

- Signal counters (`nextSignal`, `next_signal_id`, `signalCount`) and the
  string table's count are unbounded naturals. The 32-bit wrap-around of the
  C++ counters and the debug-build overflow panic of the Rust ones are not
  modelled.
- Intermediate.NewStatement: for a MUX with 32 or more address lines
  `1u << size` (src/shared/Intermediate.cpp:157) is undefined behaviour. The
  model reports an error there instead of picking a value.
- IntermediateRs.NewStatement: requires fewer than 64 MUX address lines,
  because `1 << size` overflows the shift beyond that.
- IntermediateFile.ReadBlockWith: `stringTable.strings[nameIndex]`
  (src/shared/IntermediateFile.cpp:212) indexes without a check. An index
  past the table is undefined behaviour; the model reports "String index out
  of range".
- Lexer.CommentEnd: the loop of src/frontend/Lexer.cpp:119-121 never ends
  on a comment that reaches the end of the file. The model stops at end of
  file instead; see Findings.
- The "value doesn't fit in width" warning of src/frontend/Lexer.cpp:157-158
  is not modelled. It only writes to standard error, and `1u << width` is
  undefined from 32 bits on.
- Nested blocks are held by value, not through `shared_ptr` or `Rc`.
  Sharing and aliasing of block objects are not modelled. A block that
  instantiates itself or a later block is excluded by the generator's
  precondition; there the source dereferences a null intermediate block.
- IntermediateGenerator.GenerateConstant: constants wider than 32 bits are
  excluded (the `Narrow` precondition), because `1u << i` is undefined from
  32 on.
- IntermediateGenerator.GenerateBlock: widths are unbounded naturals. In the
  source a width is a `uint64_t` (src/frontend/Symbol.h:24) but is passed as the
  `uint32_t` count of `allocateSignals`, `allocateInputSignals` and
  `allocateOutputSignals` (src/frontend/IntermediateGenerator.cpp:17,59,78,163,171;
  src/shared/Intermediate.cpp:23-51), which truncates a width of 2^32 or more,
  and its bit loops use a `uint32_t` index (IntermediateGenerator.cpp:21,30,39,63,80,138)
  that never reaches such a width, so the loop does not end. The model allocates
  and loops over the full width and reproduces neither behaviour.
- IntermediateRs.SetInput / IntermediateRs.SetOutput: an index past the slots
  panics (src/shared/intermediate.rs:149,153) and is excluded by the
  requires; the panic is not modelled. The generator's calls stay in range.
- HashTable.HashString: `key_str[i]` (src/shared/helper/hashtable.c:225) is
  taken as a signed `char`, so a byte of 0x80 or more adds a negative value
  (CharValue). Where plain `char` is unsigned, as on AArch64 Linux, the
  raw byte is added instead and the hash differs for such keys.
- The typing annotations the analyzer stores in the tree (result types,
  subscript ranges) are recomputed by functions instead of being stored.
- HashTable.Table.Set: the key compare callback is equality of keys, and the
  destroy callback, `hashtable_destroy` and the no-op load-factor and resize
  functions are not modelled.
- LexerRs: `is_alphabetic`, `is_numeric` and `is_alphanumeric` are taken as
  their ASCII subsets; the Unicode classes of the Rust library are not
  modelled.
- LexerRs.Lexer.GetToken: inputs on which src/frontend/lexer.rs panics or
  hangs are excluded by its precondition: a u64 overflow while reading a
  number, a width of 64 (`1 << 64`), and a `//` comment reaching the end of
  the input. LexerRs.Lexer.UngetChar likewise requires a character to push
  back.
- LexerRs.Lexer.GetChar: the I/O error of the underlying reader is not
  modelled; the input is a string held in memory.
- File and stream I/O, JSON output (`outputCircuit`), printing and
  `to_string` functions, command-line option parsing, backend selection
  and `Frontend::compile` are not part of this model. The older C front end
  and the unfinished Rust parser and generator are not part of it either.
- Logic simulator options (`--no-io-components`) only affect the JSON
  output, so they are left out with it.

## Findings

| source | as written | input that shows it | evidently intended | confidence | as-written member | corrected member |
|---|---|---|---|---|---|---|
| src/shared/IntermediateFile.cpp:310-314 | readFile seeks to the string table, reads it, then reads the block count from the position after the table | any file writeFile produces: the string table ends the file, so the block count read hits end of file | seek back to the end of the header (offset 16) before reading the blocks | not executed | IntermediateFile.FileAsWrittenUnreadable | IntermediateFile.FileRoundTrip |
| src/shared/IntermediateFile.cpp:249 | the "too many statements" guard tests `blockCount` | a block with 2^32 statements and no nested blocks: the guard passes and the count field is written as 0 | test `statementCount` | not executed | IntermediateFile.StatementCountTruncated | IntermediateFile.BlockRecordAgrees |
| src/frontend/Lexer.cpp:119-121 | the comment loop waits for a line break only | `//` at the end of the input: getc returns EOF forever | stop at a line break or end of file | not executed | Lexer.CommentAtEndOfFileNeverEnds | Lexer.CommentAtEndOfFileEnds |

The writer in this model keeps the guard as written (BlockRecordAsWritten),
because a file it produces must match the source byte for byte.
IntermediateFile.BlockRecord is the corrected guard.
IntermediateFile.BlockRecordAgrees proves that the two agree whenever the
statement count fits in 32 bits. The lexer uses the corrected comment loop.
The file reader used in the round trip is the corrected one
(IntermediateFile.ReadFile).

Two defects of the Rust lexer's skip loop (src/frontend/lexer.rs:198-209)
are reproduced as written on purpose, because the Rust lexer is modelled
exactly as it behaves. A '/' that starts no comment is dropped and the
character after it is read twice (LexerRs.SlashQuirk: "/ab" lexes as the
identifier "aab"). A `//` comment that reaches the end of the input never
ends, and LexerRs.SkipRules states that hang. No corrected lexer is given for
these, so they are not rows of the table above.
