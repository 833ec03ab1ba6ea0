/** The C++ recursive-descent parser (src/frontend/Parser.cpp) as functions
    over the token stream the lexer yields and a position in it. Position i
    stands for the parser whose lookahead is the i-th token; `match` moves
    it on by one token. Errors are the messages the parser throws, and a
    lexer error surfaces when the parser reads the token that fails. */
module Parser {
  import opened Wrappers
  import opened AST
  import opened Lexer

  /** A stream the lexer can yield: it ends with EndOfFile or with an error. */
  predicate WellFormed(s: Lexed)
  {
    s.error.Some? || (|s.tokens| > 0 && s.tokens[|s.tokens| - 1].tokenType == EndOfFile)
  }

  /** The parser at position i has its lookahead. */
  predicate Ready(s: Lexed, i: nat)
  {
    i < |s.tokens|
  }

  /** What a parsing function yields: the node and the position after it,
      or the error it throws. */
  datatype Parsed<+T> = Parsed(value: T, next: nat) | Failed(error: string)

  /** Lexer::TokenType_to_string. */
  function TypeName(t: TokenType): string
  {
    match t
    case Unset => "(none)"
    case EndOfFile => "end of file"
    case Identifier => "identifier"
    case Number => "number"
    case Dot => "'.'"
    case Comma => "','"
    case Semicolon => "';'"
    case Colon => "':'"
    case Equals => "'='"
    case AND => "'&'"
    case OR => "'|'"
    case XOR => "'^'"
    case NOT => "'~'"
    case LeftBrace => "'{'"
    case RightBrace => "'}'"
    case LeftBracket => "'['"
    case RightBracket => "']'"
    case LeftParenthesis => "'('"
    case RightParenthesis => "')'"
    case InKeyword => "'in'"
    case OutKeyword => "'out'"
    case BlockKeyword => "'block'"
  }

  /** The error of `match` when the lookahead has another type. */
  function ExpectedError(got: Token, expected: TokenType): string
  {
    LocationString(got.location) + ": Expected " + TypeName(expected) + " but got " + TypeName(got.tokenType)
  }

  /** The error of parsePrimaryExpression. */
  function PrimaryError(got: Token): string
  {
    LocationString(got.location) + ": Expected '(', identifier or number"
  }

  /** The error of parseTypeSpecifier. */
  function TypeError(got: Token): string
  {
    LocationString(got.location) + ": Expected type"
  }

  /** The error of parse when tokens follow the last block. */
  function TrailingError(got: Token): string
  {
    LocationString(got.location) + ": Unexpected " + TypeName(got.tokenType) + ", expected block"
  }

  /** Parser::match: the lookahead if it has type t, after which the next
      token becomes the lookahead (past EndOfFile the lexer yields
      EndOfFile again, so the position stays). */
  function MatchAt(s: Lexed, i: nat, t: TokenType): (r: Parsed<Token>)
    requires WellFormed(s) && Ready(s, i)
    ensures r.Parsed? <==> s.tokens[i].tokenType == t && (i + 1 < |s.tokens| || s.error.None?)
    ensures r.Parsed? ==> r.value == s.tokens[i] && Ready(s, r.next)
    ensures r.Parsed? && t != EndOfFile ==> r.next == i + 1
    ensures s.tokens[i].tokenType != t ==> r == Failed(ExpectedError(s.tokens[i], t))
  {
    var token := s.tokens[i];
    if token.tokenType != t then Failed(ExpectedError(token, t))
    else if i + 1 < |s.tokens| then Parsed(token, i + 1)
    else if s.error.Some? then Failed(s.error.value)
    else Parsed(token, i)
  }

  /** The lookahead's type at a ready position. */
  function Peek(s: Lexed, i: nat): TokenType
    requires Ready(s, i)
  {
    s.tokens[i].tokenType
  }

  /** parseIdentifier: an Identifier token's text. */
  function IdentifierAt(s: Lexed, i: nat): (r: Parsed<string>)
    requires WellFormed(s) && Ready(s, i)
    ensures r.Parsed? ==> r.next == i + 1 && Ready(s, r.next)
  {
    match MatchAt(s, i, Identifier)
    case Failed(e) => Failed(e)
    case Parsed(token, n) => Parsed(token.identifier, n)
  }

  /** parseNumber: a Number token's value and width. */
  function NumberAt(s: Lexed, i: nat): (r: Parsed<NumberNode>)
    requires WellFormed(s) && Ready(s, i)
    ensures r.Parsed? ==> r.next == i + 1 && Ready(s, r.next)
  {
    match MatchAt(s, i, Number)
    case Failed(e) => Failed(e)
    case Parsed(token, n) => Parsed(NumberNode(token.number.value, token.number.width), n)
  }

  /** parseSubscript: '[' number [ ':' number ] ']'. */
  function SubscriptAt(s: Lexed, i: nat): (r: Parsed<SubscriptNode>)
    requires WellFormed(s) && Ready(s, i)
    ensures r.Parsed? ==> i < r.next && Ready(s, r.next)
  {
    match MatchAt(s, i, LeftBracket)
    case Failed(e) => Failed(e)
    case Parsed(_, n) =>
      match NumberAt(s, n)
      case Failed(e) => Failed(e)
      case Parsed(start, k) =>
        match SubscriptEnd(s, k)
        case Failed(e) => Failed(e)
        case Parsed(end, m) =>
          match MatchAt(s, m, RightBracket)
          case Failed(e) => Failed(e)
          case Parsed(_, q) => Parsed(SubscriptNode(start, end), q)
  }

  /** The optional ':' number of a subscript. */
  function SubscriptEnd(s: Lexed, i: nat): (r: Parsed<Option<NumberNode>>)
    requires WellFormed(s) && Ready(s, i)
    ensures r.Parsed? ==> i <= r.next && Ready(s, r.next)
  {
    if Peek(s, i) != Colon then Parsed(None, i)
    else
      match MatchAt(s, i, Colon)
      case Failed(e) => Failed(e)
      case Parsed(_, n) =>
        match NumberAt(s, n)
        case Failed(e) => Failed(e)
        case Parsed(end, k) => Parsed(Some(end), k)
  }

  /** parseBehaviourIdentifier: identifier [ '.' identifier ] [ subscript ]. */
  function BehaviourIdentifierAt(s: Lexed, i: nat): (r: Parsed<BehaviourIdentifierNode>)
    requires WellFormed(s) && Ready(s, i)
    ensures r.Parsed? ==> i < r.next && Ready(s, r.next)
  {
    match IdentifierAt(s, i)
    case Failed(e) => Failed(e)
    case Parsed(name, n) =>
      match PropertyPart(s, n)
      case Failed(e) => Failed(e)
      case Parsed(property, k) =>
        match SubscriptPart(s, k)
        case Failed(e) => Failed(e)
        case Parsed(subscript, m) => Parsed(BehaviourIdentifierNode(name, property, subscript), m)
  }

  /** The optional '.' identifier of a behaviour identifier. */
  function PropertyPart(s: Lexed, i: nat): (r: Parsed<Option<string>>)
    requires WellFormed(s) && Ready(s, i)
    ensures r.Parsed? ==> i <= r.next && Ready(s, r.next)
  {
    if Peek(s, i) != Dot then Parsed(None, i)
    else
      match MatchAt(s, i, Dot)
      case Failed(e) => Failed(e)
      case Parsed(_, n) =>
        match IdentifierAt(s, n)
        case Failed(e) => Failed(e)
        case Parsed(name, k) => Parsed(Some(name), k)
  }

  /** The optional subscript of a behaviour identifier. */
  function SubscriptPart(s: Lexed, i: nat): (r: Parsed<Option<SubscriptNode>>)
    requires WellFormed(s) && Ready(s, i)
    ensures r.Parsed? ==> i <= r.next && Ready(s, r.next)
  {
    if Peek(s, i) != LeftBracket then Parsed(None, i)
    else
      match SubscriptAt(s, i)
      case Failed(e) => Failed(e)
      case Parsed(subscript, k) => Parsed(Some(subscript), k)
  }

  // Expressions. The functions are mutually recursive; each call either
  // consumes a token first or moves to a tighter-binding level.

  /** parseExpression. */
  function ExpressionAt(s: Lexed, i: nat): (r: Parsed<ExpressionNode>)
    requires WellFormed(s) && Ready(s, i)
    ensures r.Parsed? ==> i < r.next && Ready(s, r.next)
    decreases |s.tokens| - i, 7
  {
    OrAt(s, i)
  }

  /** parseBitwiseOrExpression: xor-expressions joined by '|'. */
  function OrAt(s: Lexed, i: nat): (r: Parsed<ExpressionNode>)
    requires WellFormed(s) && Ready(s, i)
    ensures r.Parsed? ==> i < r.next && Ready(s, r.next)
    decreases |s.tokens| - i, 6
  {
    match XorAt(s, i)
    case Failed(e) => Failed(e)
    case Parsed(left, j) => OrRest(s, left, j)
  }

  /** The loop of parseBitwiseOrExpression with `left` parsed so far. */
  function OrRest(s: Lexed, left: ExpressionNode, j: nat): (r: Parsed<ExpressionNode>)
    requires WellFormed(s) && Ready(s, j)
    ensures r.Parsed? ==> j <= r.next && Ready(s, r.next)
    decreases |s.tokens| - j, 6
  {
    if Peek(s, j) != OR then Parsed(left, j)
    else
      match MatchAt(s, j, OR)
      case Failed(e) => Failed(e)
      case Parsed(_, n) =>
        match XorAt(s, n)
        case Failed(e) => Failed(e)
        case Parsed(right, k) => OrRest(s, Binary(Or, left, right), k)
  }

  /** parseBitwiseXorExpression: and-expressions joined by '^'. */
  function XorAt(s: Lexed, i: nat): (r: Parsed<ExpressionNode>)
    requires WellFormed(s) && Ready(s, i)
    ensures r.Parsed? ==> i < r.next && Ready(s, r.next)
    decreases |s.tokens| - i, 5
  {
    match AndAt(s, i)
    case Failed(e) => Failed(e)
    case Parsed(left, j) => XorRest(s, left, j)
  }

  /** The loop of parseBitwiseXorExpression with `left` parsed so far. */
  function XorRest(s: Lexed, left: ExpressionNode, j: nat): (r: Parsed<ExpressionNode>)
    requires WellFormed(s) && Ready(s, j)
    ensures r.Parsed? ==> j <= r.next && Ready(s, r.next)
    decreases |s.tokens| - j, 5
  {
    if Peek(s, j) != XOR then Parsed(left, j)
    else
      match MatchAt(s, j, XOR)
      case Failed(e) => Failed(e)
      case Parsed(_, n) =>
        match AndAt(s, n)
        case Failed(e) => Failed(e)
        case Parsed(right, k) => XorRest(s, Binary(Xor, left, right), k)
  }

  /** parseBitwiseAndExpression: unary expressions joined by '&'. */
  function AndAt(s: Lexed, i: nat): (r: Parsed<ExpressionNode>)
    requires WellFormed(s) && Ready(s, i)
    ensures r.Parsed? ==> i < r.next && Ready(s, r.next)
    decreases |s.tokens| - i, 4
  {
    match UnaryAt(s, i)
    case Failed(e) => Failed(e)
    case Parsed(left, j) => AndRest(s, left, j)
  }

  /** The loop of parseBitwiseAndExpression with `left` parsed so far. */
  function AndRest(s: Lexed, left: ExpressionNode, j: nat): (r: Parsed<ExpressionNode>)
    requires WellFormed(s) && Ready(s, j)
    ensures r.Parsed? ==> j <= r.next && Ready(s, r.next)
    decreases |s.tokens| - j, 4
  {
    if Peek(s, j) != AND then Parsed(left, j)
    else
      match MatchAt(s, j, AND)
      case Failed(e) => Failed(e)
      case Parsed(_, n) =>
        match UnaryAt(s, n)
        case Failed(e) => Failed(e)
        case Parsed(right, k) => AndRest(s, Binary(And, left, right), k)
  }

  /** parseUnaryExpression: '~' unary_expr | primary_expr. */
  function UnaryAt(s: Lexed, i: nat): (r: Parsed<ExpressionNode>)
    requires WellFormed(s) && Ready(s, i)
    ensures r.Parsed? ==> i < r.next && Ready(s, r.next)
    decreases |s.tokens| - i, 3
  {
    if Peek(s, i) != NOT then PrimaryAt(s, i)
    else
      match MatchAt(s, i, NOT)
      case Failed(e) => Failed(e)
      case Parsed(_, n) =>
        match UnaryAt(s, n)
        case Failed(e) => Failed(e)
        case Parsed(operand, k) => Parsed(Not(operand), k)
  }

  /** parsePrimaryExpression: '(' expr ')' | behaviour_identifier | number;
      a parenthesised expression is the inner expression itself. */
  function PrimaryAt(s: Lexed, i: nat): (r: Parsed<ExpressionNode>)
    requires WellFormed(s) && Ready(s, i)
    ensures r.Parsed? ==> i < r.next && Ready(s, r.next)
    decreases |s.tokens| - i, 2
  {
    match Peek(s, i)
    case LeftParenthesis =>
      (match MatchAt(s, i, LeftParenthesis)
       case Failed(e) => Failed(e)
       case Parsed(_, n) =>
         match ExpressionAt(s, n)
         case Failed(e) => Failed(e)
         case Parsed(inner, k) =>
           match MatchAt(s, k, RightParenthesis)
           case Failed(e) => Failed(e)
           case Parsed(_, m) => Parsed(inner, m))
    case Identifier =>
      (match BehaviourIdentifierAt(s, i)
       case Failed(e) => Failed(e)
       case Parsed(identifier, k) => Parsed(Variable(identifier), k))
    case Number =>
      (match NumberAt(s, i)
       case Failed(e) => Failed(e)
       case Parsed(number, k) => Parsed(Constant(number), k))
    case _ => Failed(PrimaryError(s.tokens[i]))
  }

  // Statements, declarations and blocks.

  /** parseBehaviourStatement: behaviour_identifier '=' expression ';'. */
  function StatementAt(s: Lexed, i: nat): (r: Parsed<BehaviourStatementNode>)
    requires WellFormed(s) && Ready(s, i)
    ensures r.Parsed? ==> i < r.next && Ready(s, r.next)
  {
    match BehaviourIdentifierAt(s, i)
    case Failed(e) => Failed(e)
    case Parsed(target, n) =>
      match MatchAt(s, n, Equals)
      case Failed(e) => Failed(e)
      case Parsed(_, k) =>
        match ExpressionAt(s, k)
        case Failed(e) => Failed(e)
        case Parsed(expression, m) =>
          match MatchAt(s, m, Semicolon)
          case Failed(e) => Failed(e)
          case Parsed(_, q) => Parsed(BehaviourStatementNode(target, expression), q)
  }

  /** `acc` followed by the items of p, if p parsed. */
  function Prepend<T>(acc: seq<T>, p: Parsed<seq<T>>): Parsed<seq<T>>
  {
    match p
    case Failed(e) => Failed(e)
    case Parsed(items, n) => Parsed(acc + items, n)
  }

  /** parseBehaviourStatements: statements while the lookahead is an
      identifier. */
  function StatementsAt(s: Lexed, i: nat): (r: Parsed<seq<BehaviourStatementNode>>)
    requires WellFormed(s) && Ready(s, i)
    ensures r.Parsed? ==> i <= r.next && Ready(s, r.next) && Peek(s, r.next) != Identifier
    decreases |s.tokens| - i
  {
    if Peek(s, i) != Identifier then Parsed([], i)
    else
      match StatementAt(s, i)
      case Failed(e) => Failed(e)
      case Parsed(statement, n) => Prepend([statement], StatementsAt(s, n))
  }

  /** parseIdentifierList: identifier ( ',' identifier )*. */
  function IdentifierListAt(s: Lexed, i: nat): (r: Parsed<seq<string>>)
    requires WellFormed(s) && Ready(s, i)
    ensures r.Parsed? ==> i < r.next && Ready(s, r.next) && |r.value| > 0
  {
    match IdentifierAt(s, i)
    case Failed(e) => Failed(e)
    case Parsed(name, n) => Prepend([name], IdentifierRest(s, n))
  }

  /** The loop of parseIdentifierList. */
  function IdentifierRest(s: Lexed, i: nat): (r: Parsed<seq<string>>)
    requires WellFormed(s) && Ready(s, i)
    ensures r.Parsed? ==> i <= r.next && Ready(s, r.next) && Peek(s, r.next) != Comma
    decreases |s.tokens| - i
  {
    if Peek(s, i) != Comma then Parsed([], i)
    else
      match MatchAt(s, i, Comma)
      case Failed(e) => Failed(e)
      case Parsed(_, n) =>
        match IdentifierAt(s, n)
        case Failed(e) => Failed(e)
        case Parsed(name, k) => Prepend([name], IdentifierRest(s, k))
  }

  /** parseTypeSpecifier: 'in' | 'out' | 'block' identifier. */
  function TypeSpecifierAt(s: Lexed, i: nat): (r: Parsed<TypeSpecifierNode>)
    requires WellFormed(s) && Ready(s, i)
    ensures r.Parsed? ==> i < r.next && Ready(s, r.next)
  {
    match Peek(s, i)
    case InKeyword =>
      (match MatchAt(s, i, InKeyword)
       case Failed(e) => Failed(e)
       case Parsed(_, n) => Parsed(InSpecifier, n))
    case OutKeyword =>
      (match MatchAt(s, i, OutKeyword)
       case Failed(e) => Failed(e)
       case Parsed(_, n) => Parsed(OutSpecifier, n))
    case BlockKeyword =>
      (match MatchAt(s, i, BlockKeyword)
       case Failed(e) => Failed(e)
       case Parsed(_, n) =>
         match IdentifierAt(s, n)
         case Failed(e) => Failed(e)
         case Parsed(name, k) => Parsed(BlockSpecifier(name), k))
    case _ => Failed(TypeError(s.tokens[i]))
  }

  /** parseType: type_specifier [ '[' number ']' ]. */
  function TypeAt(s: Lexed, i: nat): (r: Parsed<TypeNode>)
    requires WellFormed(s) && Ready(s, i)
    ensures r.Parsed? ==> i < r.next && Ready(s, r.next)
  {
    match TypeSpecifierAt(s, i)
    case Failed(e) => Failed(e)
    case Parsed(specifier, n) =>
      match TypeWidth(s, n)
      case Failed(e) => Failed(e)
      case Parsed(width, k) => Parsed(TypeNode(specifier, width), k)
  }

  /** The optional '[' number ']' of a type. */
  function TypeWidth(s: Lexed, i: nat): (r: Parsed<Option<NumberNode>>)
    requires WellFormed(s) && Ready(s, i)
    ensures r.Parsed? ==> i <= r.next && Ready(s, r.next)
  {
    if Peek(s, i) != LeftBracket then Parsed(None, i)
    else
      match MatchAt(s, i, LeftBracket)
      case Failed(e) => Failed(e)
      case Parsed(_, n) =>
        match NumberAt(s, n)
        case Failed(e) => Failed(e)
        case Parsed(width, k) =>
          match MatchAt(s, k, RightBracket)
          case Failed(e) => Failed(e)
          case Parsed(_, m) => Parsed(Some(width), m)
  }

  /** parseDeclaration: type identifier_list ';'. */
  function DeclarationAt(s: Lexed, i: nat): (r: Parsed<DeclarationNode>)
    requires WellFormed(s) && Ready(s, i)
    ensures r.Parsed? ==> i < r.next && Ready(s, r.next)
  {
    match TypeAt(s, i)
    case Failed(e) => Failed(e)
    case Parsed(typeNode, n) =>
      match IdentifierListAt(s, n)
      case Failed(e) => Failed(e)
      case Parsed(names, k) =>
        match MatchAt(s, k, Semicolon)
        case Failed(e) => Failed(e)
        case Parsed(_, m) => Parsed(DeclarationNode(typeNode, names), m)
  }

  /** Whether a declaration starts with this token type. */
  predicate StartsDeclaration(t: TokenType)
  {
    t == InKeyword || t == OutKeyword || t == BlockKeyword
  }

  /** parseDeclarations: declarations while the lookahead is in, out or block. */
  function DeclarationsAt(s: Lexed, i: nat): (r: Parsed<seq<DeclarationNode>>)
    requires WellFormed(s) && Ready(s, i)
    ensures r.Parsed? ==> i <= r.next && Ready(s, r.next) && !StartsDeclaration(Peek(s, r.next))
    decreases |s.tokens| - i
  {
    if !StartsDeclaration(Peek(s, i)) then Parsed([], i)
    else
      match DeclarationAt(s, i)
      case Failed(e) => Failed(e)
      case Parsed(declaration, n) => Prepend([declaration], DeclarationsAt(s, n))
  }

  /** parseBlock: 'block' identifier '{' declarations behaviour_statements '}'. */
  function BlockAt(s: Lexed, i: nat): (r: Parsed<BlockNode>)
    requires WellFormed(s) && Ready(s, i)
    ensures r.Parsed? ==> i < r.next && Ready(s, r.next)
  {
    match MatchAt(s, i, BlockKeyword)
    case Failed(e) => Failed(e)
    case Parsed(_, n) =>
      match IdentifierAt(s, n)
      case Failed(e) => Failed(e)
      case Parsed(name, k) =>
        match MatchAt(s, k, LeftBrace)
        case Failed(e) => Failed(e)
        case Parsed(_, m) => BlockBody(s, name, m)
  }

  /** The declarations, statements and '}' of a block. */
  function BlockBody(s: Lexed, name: string, i: nat): (r: Parsed<BlockNode>)
    requires WellFormed(s) && Ready(s, i)
    ensures r.Parsed? ==> i < r.next && Ready(s, r.next)
  {
    match DeclarationsAt(s, i)
    case Failed(e) => Failed(e)
    case Parsed(declarations, n) =>
      match StatementsAt(s, n)
      case Failed(e) => Failed(e)
      case Parsed(statements, k) =>
        match MatchAt(s, k, RightBrace)
        case Failed(e) => Failed(e)
        case Parsed(_, m) => Parsed(BlockNode(name, declarations, statements), m)
  }

  /** parseBlocks: blocks while the lookahead is 'block'. */
  function BlocksAt(s: Lexed, i: nat): (r: Parsed<seq<BlockNode>>)
    requires WellFormed(s) && Ready(s, i)
    ensures r.Parsed? ==> i <= r.next && Ready(s, r.next) && Peek(s, r.next) != BlockKeyword
    decreases |s.tokens| - i
  {
    if Peek(s, i) != BlockKeyword then Parsed([], i)
    else
      match BlockAt(s, i)
      case Failed(e) => Failed(e)
      case Parsed(block, n) => Prepend([block], BlocksAt(s, n))
  }

  /** Parser::parse: reads the first lookahead, parses blocks, and then
      demands the end of the file. */
  function ParseTokens(s: Lexed): (r: Result<RootNode>)
    requires WellFormed(s)
    ensures |s.tokens| == 0 ==> r == Failure(s.error.value)
    ensures r.Success? ==> BlocksAt(s, 0).Parsed? && r.value.blocks == BlocksAt(s, 0).value
    ensures r.Success? ==> s.tokens[BlocksAt(s, 0).next].tokenType == EndOfFile
    ensures |s.tokens| > 0 && BlocksAt(s, 0).Parsed? && Peek(s, BlocksAt(s, 0).next) != EndOfFile ==>
      r == Failure(TrailingError(s.tokens[BlocksAt(s, 0).next]))
  {
    if |s.tokens| == 0 then Failure(s.error.value)
    else
      match BlocksAt(s, 0)
      case Failed(e) => Failure(e)
      case Parsed(blocks, n) =>
        if Peek(s, n) != EndOfFile then Failure(TrailingError(s.tokens[n]))
        else Success(RootNode(blocks))
  }

  /** The method's result r and the parser's new position agree with what
      the parsing function yields. */
  ghost predicate Agrees<T>(r: Result<T>, p: Parsed<T>, pos: nat)
  {
    match p
    case Parsed(v, n) => r == Success(v) && pos == n
    case Failed(e) => r == Failure(e)
  }

  lemma PrependNothing<T>(p: Parsed<seq<T>>)
    ensures Prepend([], p) == p
  {
    if p.Parsed? {
      assert [] + p.value == p.value;
    }
  }

  lemma PrependAll<T>(a: seq<T>, n: nat)
    ensures Prepend(a, Parsed([], n)) == Parsed(a, n)
  {
    assert a + [] == a;
  }

  lemma PrependAppend<T>(a: seq<T>, b: seq<T>, p: Parsed<seq<T>>)
    ensures Prepend(a, Prepend(b, p)) == Prepend(a + b, p)
  {
    if p.Parsed? {
      AppendAssociates(a, b, p.value);
    }
  }

  /** The parser: the token stream its lexer yields, the position of the
      lookahead in it, and the lookahead itself (none before parse starts). */
  class Parser {
    const stream: Lexed
    var pos: nat
    var lookahead: Option<Token>

    /** The lookahead is the token at pos. */
    ghost predicate Valid()
      reads this
    {
      WellFormed(stream) && Ready(stream, pos) && lookahead == Some(stream.tokens[pos])
    }

    /** Parser::Parser: no lookahead has been read yet. */
    constructor (stream: Lexed)
      requires WellFormed(stream)
      ensures this.stream == stream && pos == 0 && lookahead == None
    {
      this.stream := stream;
      pos := 0;
      lookahead := None;
    }

    /** readLookahead: the lexer's next token, the one at `next`, becomes
        the lookahead; a lexer error is thrown on. */
    method ReadLookahead(next: nat) returns (r: Outcome)
      requires WellFormed(stream) && (next < |stream.tokens| || stream.error.Some?)
      modifies this
      ensures r.Pass? <==> next < |stream.tokens|
      ensures r.Pass? ==> Valid() && pos == next
      ensures r.Fail? ==> r.error == stream.error.value
    {
      if next < |stream.tokens| {
        pos := next;
        lookahead := Some(stream.tokens[next]);
        r := Pass;
      } else {
        r := Fail(stream.error.value);
      }
    }

    /** match: the lookahead if it has type t, and the next token becomes
        the lookahead; otherwise the "Expected" error. */
    method Match(t: TokenType) returns (r: Result<Token>)
      requires Valid()
      modifies this
      ensures Agrees(r, MatchAt(stream, old(pos), t), pos) && (r.Success? ==> Valid())
    {
      var token := lookahead.value;
      if token.tokenType != t {
        return Failure(ExpectedError(token, t));
      }
      if pos + 1 < |stream.tokens| || stream.error.Some? {
        var ok := ReadLookahead(pos + 1);
        if ok.Fail? {
          return Failure(ok.error);
        }
      }
      r := Success(token);
    }

    /** parseIdentifier. */
    method ParseIdentifier() returns (r: Result<string>)
      requires Valid()
      modifies this
      ensures Agrees(r, IdentifierAt(stream, old(pos)), pos) && (r.Success? ==> Valid())
    {
      var token :- Match(Identifier);
      r := Success(token.identifier);
    }

    /** parseNumber. */
    method ParseNumber() returns (r: Result<NumberNode>)
      requires Valid()
      modifies this
      ensures Agrees(r, NumberAt(stream, old(pos)), pos) && (r.Success? ==> Valid())
    {
      var token :- Match(Number);
      r := Success(NumberNode(token.number.value, token.number.width));
    }

    /** parseSubscript, with the optional end index. */
    method ParseSubscript() returns (r: Result<SubscriptNode>)
      requires Valid()
      modifies this
      ensures Agrees(r, SubscriptAt(stream, old(pos)), pos) && (r.Success? ==> Valid())
    {
      var open :- Match(LeftBracket);
      var start :- ParseNumber();
      var end: Option<NumberNode> := None;
      ghost var k := pos;
      if lookahead.value.tokenType == Colon {
        var colon :- Match(Colon);
        var number :- ParseNumber();
        end := Some(number);
      }
      assert SubscriptEnd(stream, k) == Parsed(end, pos);
      var close :- Match(RightBracket);
      r := Success(SubscriptNode(start, end));
    }

    /** parseBehaviourIdentifier: the property and the subscript are each
        optional, in that order. */
    method ParseBehaviourIdentifier() returns (r: Result<BehaviourIdentifierNode>)
      requires Valid()
      modifies this
      ensures Agrees(r, BehaviourIdentifierAt(stream, old(pos)), pos) && (r.Success? ==> Valid())
    {
      var name :- ParseIdentifier();
      var property: Option<string> := None;
      ghost var n := pos;
      if lookahead.value.tokenType == Dot {
        var dot :- Match(Dot);
        var propertyName :- ParseIdentifier();
        property := Some(propertyName);
      }
      assert PropertyPart(stream, n) == Parsed(property, pos);
      var subscript: Option<SubscriptNode> := None;
      ghost var k := pos;
      if lookahead.value.tokenType == LeftBracket {
        var sub :- ParseSubscript();
        subscript := Some(sub);
      }
      assert SubscriptPart(stream, k) == Parsed(subscript, pos);
      r := Success(BehaviourIdentifierNode(name, property, subscript));
    }

    /** parsePrimaryExpression. */
    method ParsePrimaryExpression() returns (r: Result<ExpressionNode>)
      requires Valid()
      modifies this
      ensures Agrees(r, PrimaryAt(stream, old(pos)), pos) && (r.Success? ==> Valid())
      decreases |stream.tokens| - pos, 2
    {
      match lookahead.value.tokenType
      case LeftParenthesis =>
        var open :- Match(LeftParenthesis);
        var inner :- ParseExpression();
        var close :- Match(RightParenthesis);
        r := Success(inner);
      case Identifier =>
        var identifier :- ParseBehaviourIdentifier();
        r := Success(Variable(identifier));
      case Number =>
        var number :- ParseNumber();
        r := Success(Constant(number));
      case _ =>
        r := Failure(PrimaryError(lookahead.value));
    }

    /** parseUnaryExpression. */
    method ParseUnaryExpression() returns (r: Result<ExpressionNode>)
      requires Valid()
      modifies this
      ensures Agrees(r, UnaryAt(stream, old(pos)), pos) && (r.Success? ==> Valid())
      decreases |stream.tokens| - pos, 3
    {
      if lookahead.value.tokenType == NOT {
        var not :- Match(NOT);
        var operand :- ParseUnaryExpression();
        r := Success(Not(operand));
      } else {
        r := ParsePrimaryExpression();
      }
    }

    /** parseBitwiseAndExpression: `left` is rebuilt for each '&'. */
    method ParseBitwiseAndExpression() returns (r: Result<ExpressionNode>)
      requires Valid()
      modifies this
      ensures Agrees(r, AndAt(stream, old(pos)), pos) && (r.Success? ==> Valid())
      decreases |stream.tokens| - pos, 4
    {
      var left :- ParseUnaryExpression();
      while lookahead.value.tokenType == AND
        invariant Valid() && old(pos) <= pos
        invariant AndAt(stream, old(pos)) == AndRest(stream, left, pos)
        decreases |stream.tokens| - pos
      {
        var and :- Match(AND);
        var right :- ParseUnaryExpression();
        left := Binary(And, left, right);
      }
      r := Success(left);
    }

    /** parseBitwiseXorExpression: `left` is rebuilt for each '^'. */
    method ParseBitwiseXorExpression() returns (r: Result<ExpressionNode>)
      requires Valid()
      modifies this
      ensures Agrees(r, XorAt(stream, old(pos)), pos) && (r.Success? ==> Valid())
      decreases |stream.tokens| - pos, 5
    {
      var left :- ParseBitwiseAndExpression();
      while lookahead.value.tokenType == XOR
        invariant Valid() && old(pos) <= pos
        invariant XorAt(stream, old(pos)) == XorRest(stream, left, pos)
        decreases |stream.tokens| - pos
      {
        var xor :- Match(XOR);
        var right :- ParseBitwiseAndExpression();
        left := Binary(Xor, left, right);
      }
      r := Success(left);
    }

    /** parseBitwiseOrExpression: `left` is rebuilt for each '|'. */
    method ParseBitwiseOrExpression() returns (r: Result<ExpressionNode>)
      requires Valid()
      modifies this
      ensures Agrees(r, OrAt(stream, old(pos)), pos) && (r.Success? ==> Valid())
      decreases |stream.tokens| - pos, 6
    {
      var left :- ParseBitwiseXorExpression();
      while lookahead.value.tokenType == OR
        invariant Valid() && old(pos) <= pos
        invariant OrAt(stream, old(pos)) == OrRest(stream, left, pos)
        decreases |stream.tokens| - pos
      {
        var or :- Match(OR);
        var right :- ParseBitwiseXorExpression();
        left := Binary(Or, left, right);
      }
      r := Success(left);
    }

    /** parseExpression. */
    method ParseExpression() returns (r: Result<ExpressionNode>)
      requires Valid()
      modifies this
      ensures Agrees(r, ExpressionAt(stream, old(pos)), pos) && (r.Success? ==> Valid())
      decreases |stream.tokens| - pos, 7
    {
      r := ParseBitwiseOrExpression();
    }

    /** parseBehaviourStatement. */
    method ParseBehaviourStatement() returns (r: Result<BehaviourStatementNode>)
      requires Valid()
      modifies this
      ensures Agrees(r, StatementAt(stream, old(pos)), pos) && (r.Success? ==> Valid())
    {
      var target :- ParseBehaviourIdentifier();
      var equals :- Match(Equals);
      var expression :- ParseExpression();
      var semicolon :- Match(Semicolon);
      r := Success(BehaviourStatementNode(target, expression));
    }

    /** parseBehaviourStatements: statements while the lookahead is an
        identifier. */
    method ParseBehaviourStatements() returns (r: Result<seq<BehaviourStatementNode>>)
      requires Valid()
      modifies this
      ensures Agrees(r, StatementsAt(stream, old(pos)), pos) && (r.Success? ==> Valid())
    {
      var statements := [];
      PrependNothing(StatementsAt(stream, pos));
      while lookahead.value.tokenType == Identifier
        invariant Valid()
        invariant StatementsAt(stream, old(pos)) == Prepend(statements, StatementsAt(stream, pos))
        decreases |stream.tokens| - pos
      {
        var statement :- ParseBehaviourStatement();
        PrependAppend(statements, [statement], StatementsAt(stream, pos));
        statements := statements + [statement];
      }
      PrependAll(statements, pos);
      r := Success(statements);
    }

    /** parseIdentifierList: at least one identifier, in source order. */
    method ParseIdentifierList() returns (r: Result<seq<string>>)
      requires Valid()
      modifies this
      ensures Agrees(r, IdentifierListAt(stream, old(pos)), pos) && (r.Success? ==> Valid())
    {
      var first :- ParseIdentifier();
      var names := [first];
      while lookahead.value.tokenType == Comma
        invariant Valid()
        invariant IdentifierListAt(stream, old(pos)) == Prepend(names, IdentifierRest(stream, pos))
        decreases |stream.tokens| - pos
      {
        var comma :- Match(Comma);
        var name :- ParseIdentifier();
        PrependAppend(names, [name], IdentifierRest(stream, pos));
        names := names + [name];
      }
      PrependAll(names, pos);
      r := Success(names);
    }

    /** parseTypeSpecifier. */
    method ParseTypeSpecifier() returns (r: Result<TypeSpecifierNode>)
      requires Valid()
      modifies this
      ensures Agrees(r, TypeSpecifierAt(stream, old(pos)), pos) && (r.Success? ==> Valid())
    {
      match lookahead.value.tokenType
      case InKeyword =>
        var keyword :- Match(InKeyword);
        r := Success(InSpecifier);
      case OutKeyword =>
        var keyword :- Match(OutKeyword);
        r := Success(OutSpecifier);
      case BlockKeyword =>
        var keyword :- Match(BlockKeyword);
        var name :- ParseIdentifier();
        r := Success(BlockSpecifier(name));
      case _ =>
        r := Failure(TypeError(lookahead.value));
    }

    /** parseType, with the optional width. */
    method ParseType() returns (r: Result<TypeNode>)
      requires Valid()
      modifies this
      ensures Agrees(r, TypeAt(stream, old(pos)), pos) && (r.Success? ==> Valid())
    {
      var specifier :- ParseTypeSpecifier();
      var width: Option<NumberNode> := None;
      ghost var n := pos;
      if lookahead.value.tokenType == LeftBracket {
        var open :- Match(LeftBracket);
        var number :- ParseNumber();
        var close :- Match(RightBracket);
        width := Some(number);
      }
      assert TypeWidth(stream, n) == Parsed(width, pos);
      r := Success(TypeNode(specifier, width));
    }

    /** parseDeclaration. */
    method ParseDeclaration() returns (r: Result<DeclarationNode>)
      requires Valid()
      modifies this
      ensures Agrees(r, DeclarationAt(stream, old(pos)), pos) && (r.Success? ==> Valid())
    {
      var typeNode :- ParseType();
      var names :- ParseIdentifierList();
      var semicolon :- Match(Semicolon);
      r := Success(DeclarationNode(typeNode, names));
    }

    /** parseDeclarations: declarations while the lookahead is in, out or
        block. */
    method ParseDeclarations() returns (r: Result<seq<DeclarationNode>>)
      requires Valid()
      modifies this
      ensures Agrees(r, DeclarationsAt(stream, old(pos)), pos) && (r.Success? ==> Valid())
    {
      var declarations := [];
      PrependNothing(DeclarationsAt(stream, pos));
      while StartsDeclaration(lookahead.value.tokenType)
        invariant Valid()
        invariant DeclarationsAt(stream, old(pos)) == Prepend(declarations, DeclarationsAt(stream, pos))
        decreases |stream.tokens| - pos
      {
        var declaration :- ParseDeclaration();
        PrependAppend(declarations, [declaration], DeclarationsAt(stream, pos));
        declarations := declarations + [declaration];
      }
      PrependAll(declarations, pos);
      r := Success(declarations);
    }

    /** parseBlock. */
    method ParseBlock() returns (r: Result<BlockNode>)
      requires Valid()
      modifies this
      ensures Agrees(r, BlockAt(stream, old(pos)), pos) && (r.Success? ==> Valid())
    {
      var keyword :- Match(BlockKeyword);
      var name :- ParseIdentifier();
      var open :- Match(LeftBrace);
      var declarations :- ParseDeclarations();
      var statements :- ParseBehaviourStatements();
      var close :- Match(RightBrace);
      r := Success(BlockNode(name, declarations, statements));
    }

    /** parseBlocks: blocks while the lookahead is 'block'. */
    method ParseBlocks() returns (r: Result<seq<BlockNode>>)
      requires Valid()
      modifies this
      ensures Agrees(r, BlocksAt(stream, old(pos)), pos) && (r.Success? ==> Valid())
    {
      var blocks := [];
      PrependNothing(BlocksAt(stream, pos));
      while lookahead.value.tokenType == BlockKeyword
        invariant Valid()
        invariant BlocksAt(stream, old(pos)) == Prepend(blocks, BlocksAt(stream, pos))
        decreases |stream.tokens| - pos
      {
        var block :- ParseBlock();
        PrependAppend(blocks, [block], BlocksAt(stream, pos));
        blocks := blocks + [block];
      }
      PrependAll(blocks, pos);
      r := Success(blocks);
    }

    /** Parser::parse on a fresh parser. */
    method Parse() returns (r: Result<RootNode>)
      requires WellFormed(stream) && pos == 0
      modifies this
      ensures r == ParseTokens(stream)
    {
      var ok := ReadLookahead(0);
      if ok.Fail? {
        return Failure(ok.error);
      }
      var blocks :- ParseBlocks();
      if lookahead.value.tokenType != EndOfFile {
        return Failure(TrailingError(lookahead.value));
      }
      r := Success(RootNode(blocks));
    }
  }
}
