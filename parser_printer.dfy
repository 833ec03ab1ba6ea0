/** Printing a parse tree back into the tokens it came from, and the proof
    that parsing the print gives the tree back: the precedence and
    associativity of the expression parser in src/frontend/Parser.cpp are
    exactly those the printer assumes. */
module ParserPrinter {
  import opened Wrappers
  import opened AST
  import opened Lexer
  import opened Parser

  /** The location printed tokens carry; parsing does not look at it. */
  const Nowhere := Location(0, 0, "")

  function Punct(t: TokenType): Token
  {
    MakeToken(t, Nowhere)
  }

  function NameToken(name: string): Token
  {
    IdentifierToken(Nowhere, name)
  }

  function NumberLiteral(n: NumberNode): Token
  {
    NumberToken(Nowhere, n.value, n.width)
  }

  /** The tokens of p occur in the stream from position i on. */
  ghost predicate Occurs(s: Lexed, i: nat, p: seq<Token>)
  {
    i + |p| <= |s.tokens| && forall k {:trigger p[k]} :: 0 <= k < |p| ==> s.tokens[i + k] == p[k]
  }

  /** Four pieces printed one after the other, starting at i, j, m and n. */
  lemma OccursFour(s: Lexed, i: nat, a: seq<Token>, b: seq<Token>, c: seq<Token>, d: seq<Token>, j: nat, m: nat, n: nat)
    requires Occurs(s, i, a + b + c + d) && j == i + |a| && m == j + |b| && n == m + |c|
    ensures Occurs(s, i, a) && Occurs(s, j, b) && Occurs(s, m, c) && Occurs(s, n, d)
  {
    OccursSplit(s, i, a + b + c, d);
    OccursSplit(s, i, a + b, c);
    OccursSplit(s, i, a, b);
  }

  lemma OccursSplit(s: Lexed, i: nat, a: seq<Token>, b: seq<Token>)
    requires Occurs(s, i, a + b)
    ensures Occurs(s, i, a) && Occurs(s, i + |a|, b)
  {
    forall k | 0 <= k < |a|
      ensures s.tokens[i + k] == a[k]
    {
      assert (a + b)[k] == a[k];
    }
    forall k | 0 <= k < |b|
      ensures s.tokens[i + |a| + k] == b[k]
    {
      assert (a + b)[|a| + k] == b[k];
    }
  }

  lemma TokenOf(s: Lexed, i: nat, p: seq<Token>, k: nat)
    requires Occurs(s, i, p) && k < |p|
    ensures s.tokens[i + k] == p[k]
  {
  }

  function PrintSubscript(sub: SubscriptNode): seq<Token>
  {
    [Punct(LeftBracket), NumberLiteral(sub.start)] + EndTokens(sub.end) + [Punct(RightBracket)]
  }

  function EndTokens(end: Option<NumberNode>): seq<Token>
  {
    match end
    case None => []
    case Some(n) => [Punct(Colon), NumberLiteral(n)]
  }

  function PrintBehaviourIdentifier(b: BehaviourIdentifierNode): seq<Token>
  {
    [NameToken(b.identifier)] + PropertyTokens(b.propertyIdentifier) + SubscriptTokens(b.subscript)
  }

  function PropertyTokens(property: Option<string>): seq<Token>
  {
    match property
    case None => []
    case Some(p) => [Punct(Dot), NameToken(p)]
  }

  function SubscriptTokens(subscript: Option<SubscriptNode>): seq<Token>
  {
    match subscript
    case None => []
    case Some(sub) => PrintSubscript(sub)
  }

  /** match on a token of the right type that is not the last. */
  lemma MatchNext(s: Lexed, i: nat, t: TokenType)
    requires WellFormed(s) && i + 1 < |s.tokens| && s.tokens[i].tokenType == t
    ensures MatchAt(s, i, t) == Parsed(s.tokens[i], i + 1)
  {
  }

  lemma PropertyPartPrinted(s: Lexed, n: nat, property: Option<string>, tokens: seq<Token>, end: nat)
    requires WellFormed(s)
    requires tokens == PropertyTokens(property)
    requires Occurs(s, n, tokens) && end == n + |tokens| && Ready(s, end) && Peek(s, end) != Dot
    ensures PropertyPart(s, n) == Parsed(property, end)
  {
    if property.Some? {
      TokenOf(s, n, tokens, 0);
      TokenOf(s, n, tokens, 1);
      MatchNext(s, n, Dot);
      MatchNext(s, n + 1, Identifier);
    }
  }

  lemma SubscriptEndPrinted(s: Lexed, n: nat, end: Option<NumberNode>, tokens: seq<Token>)
    requires WellFormed(s)
    requires tokens == EndTokens(end)
    requires Occurs(s, n, tokens) && Ready(s, n + |tokens|) && Peek(s, n + |tokens|) != Colon
    ensures SubscriptEnd(s, n) == Parsed(end, n + |tokens|)
  {
    if end.Some? {
      TokenOf(s, n, tokens, 0);
      TokenOf(s, n, tokens, 1);
      MatchNext(s, n, Colon);
      MatchNext(s, n + 1, Number);
    }
  }

  /** A subscript is read back from its tokens: "[s]" has no end index and
      "[s:e]" has both. */
  lemma SubscriptRoundTrip(sub: SubscriptNode, s: Lexed, i: nat)
    requires WellFormed(s)
    requires Occurs(s, i, PrintSubscript(sub)) && Ready(s, i + |PrintSubscript(sub)|)
    ensures SubscriptAt(s, i) == Parsed(sub, i + |PrintSubscript(sub)|)
  {
    var head := [Punct(LeftBracket), NumberLiteral(sub.start)];
    var end := EndTokens(sub.end);
    OccursSplit(s, i, head + end, [Punct(RightBracket)]);
    OccursSplit(s, i, head, end);
    TokenOf(s, i, head, 0);
    TokenOf(s, i, head, 1);
    var close := i + 2 + |end|;
    TokenOf(s, close, [Punct(RightBracket)], 0);
    MatchNext(s, i, LeftBracket);
    MatchNext(s, i + 1, Number);
    SubscriptEndPrinted(s, i + 2, sub.end, end);
    MatchNext(s, close, RightBracket);
  }

  /** A behaviour identifier is read back from its tokens: the property and
      the subscript are each present exactly when printed. */
  lemma BehaviourIdentifierRoundTrip(b: BehaviourIdentifierNode, s: Lexed, i: nat, end: nat)
    requires WellFormed(s)
    requires Occurs(s, i, PrintBehaviourIdentifier(b)) && end == i + |PrintBehaviourIdentifier(b)|
    requires Ready(s, end) && Peek(s, end) != Dot && Peek(s, end) != LeftBracket
    ensures BehaviourIdentifierAt(s, i) == Parsed(b, end)
  {
    var k := i + 1 + |PropertyTokens(b.propertyIdentifier)|;
    BehaviourIdentifierLayout(b, s, i, k, end);
    PropertyPartPrinted(s, i + 1, b.propertyIdentifier, PropertyTokens(b.propertyIdentifier), k);
    SubscriptPartPrinted(s, k, b.subscript, SubscriptTokens(b.subscript), end);
    BehaviourIdentifierFromParts(s, i, b, k, end);
  }

  /** Where the name, the property and the subscript of a printed
      behaviour identifier lie; k is where the subscript starts. */
  lemma BehaviourIdentifierLayout(b: BehaviourIdentifierNode, s: Lexed, i: nat, k: nat, end: nat)
    requires Occurs(s, i, PrintBehaviourIdentifier(b)) && end == i + |PrintBehaviourIdentifier(b)|
    requires k == i + 1 + |PropertyTokens(b.propertyIdentifier)|
    ensures i < k <= end && s.tokens[i] == NameToken(b.identifier)
    ensures Occurs(s, i + 1, PropertyTokens(b.propertyIdentifier))
    ensures Occurs(s, k, SubscriptTokens(b.subscript)) && end == k + |SubscriptTokens(b.subscript)|
    ensures b.subscript.Some? ==> k < |s.tokens| && s.tokens[k] == Punct(LeftBracket)
  {
    var name := [NameToken(b.identifier)];
    var property := PropertyTokens(b.propertyIdentifier);
    var subscript := SubscriptTokens(b.subscript);
    OccursSplit(s, i, name + property, subscript);
    OccursSplit(s, i, name, property);
    TokenOf(s, i, name, 0);
    if b.subscript.Some? {
      TokenOf(s, k, subscript, 0);
    }
  }

  lemma BehaviourIdentifierFromParts(s: Lexed, i: nat, b: BehaviourIdentifierNode, k: nat, end: nat)
    requires WellFormed(s) && i + 1 < |s.tokens| && s.tokens[i] == NameToken(b.identifier)
    requires PropertyPart(s, i + 1) == Parsed(b.propertyIdentifier, k)
    requires Ready(s, k) && SubscriptPart(s, k) == Parsed(b.subscript, end)
    ensures BehaviourIdentifierAt(s, i) == Parsed(b, end)
  {
    MatchNext(s, i, Identifier);
  }

  lemma SubscriptPartPrinted(s: Lexed, k: nat, subscript: Option<SubscriptNode>, tokens: seq<Token>, end: nat)
    requires WellFormed(s)
    requires tokens == SubscriptTokens(subscript)
    requires Occurs(s, k, tokens) && end == k + |tokens| && Ready(s, end) && Peek(s, end) != LeftBracket
    ensures SubscriptPart(s, k) == Parsed(subscript, end)
  {
    if subscript.Some? {
      TokenOf(s, k, tokens, 0);
      SubscriptRoundTrip(subscript.value, s, k);
    }
  }

  /** Binding levels: 0 for '|', 1 for '^', 2 for '&', 3 for unary
      expressions; a higher level binds tighter. */
  type Level = x: nat | x <= 3

  function OpLevel(op: BinaryOperator): Level
  {
    match op
    case Or => 0
    case Xor => 1
    case And => 2
  }

  function OpToken(op: BinaryOperator): TokenType
  {
    match op
    case Or => OR
    case Xor => XOR
    case And => AND
  }

  /** How many printing steps e at `level` takes before it prints a
      smaller tree. */
  function Rank(e: ExpressionNode, level: Level): nat
  {
    if e.Binary? then
      if level <= OpLevel(e.op) then OpLevel(e.op) - level else 7 - level
    else 3 - level
  }

  /** An expression's tokens at a binding level, with the fewest
      parentheses: a binary operator of that level prints its left operand
      at the same level and its right operand one level tighter (left
      associativity), a looser operator is parenthesised at unary level. */
  function PrintExpression(e: ExpressionNode, level: Level): (r: seq<Token>)
    ensures |r| > 0
    decreases e, Rank(e, level)
  {
    match e
    case Binary(op, left, right) =>
      if level == OpLevel(op) then
        PrintExpression(left, level) + [Punct(OpToken(op))] + PrintExpression(right, level + 1)
      else if level < 3 then PrintExpression(e, level + 1)
      else [Punct(LeftParenthesis)] + PrintExpression(e, 0) + [Punct(RightParenthesis)]
    case Not(operand) => [Punct(NOT)] + PrintExpression(operand, 3)
    case Variable(identifier) => PrintBehaviourIdentifier(identifier)
    case Constant(number) => [NumberLiteral(number)]
  }

  /** The parsing function of a binding level. */
  function LevelAt(s: Lexed, i: nat, level: Level): Parsed<ExpressionNode>
    requires WellFormed(s) && Ready(s, i)
  {
    if level == 0 then OrAt(s, i)
    else if level == 1 then XorAt(s, i)
    else if level == 2 then AndAt(s, i)
    else UnaryAt(s, i)
  }

  /** The operator loop of a binary level. */
  function RestAt(s: Lexed, level: Level, left: ExpressionNode, j: nat): Parsed<ExpressionNode>
    requires WellFormed(s) && Ready(s, j) && level < 3
  {
    if level == 0 then OrRest(s, left, j)
    else if level == 1 then XorRest(s, left, j)
    else AndRest(s, left, j)
  }

  /** A token that ends an expression at `level` as far as the tighter
      levels and identifiers are concerned. */
  predicate Closes(level: Level, t: TokenType)
  {
    t != Dot && t != LeftBracket && (level < 2 ==> t != AND) && (level < 1 ==> t != XOR)
  }

  /** A token that ends an expression at `level`. */
  predicate Ends(level: Level, t: TokenType)
  {
    Closes(level, t) && (level == 0 ==> t != OR) && (level == 1 ==> t != XOR) && (level == 2 ==> t != AND)
  }

  lemma RestEnds(s: Lexed, level: Level, e: ExpressionNode, j: nat)
    requires WellFormed(s) && Ready(s, j) && level < 3 && Ends(level, Peek(s, j))
    ensures RestAt(s, level, e, j) == Parsed(e, j)
  {
  }

  /** The printed tokens of e are parsed back at their level into e; at a
      binary level the operator loop is left to continue after them. */
  lemma {:induction false} PrintedExpressionParses(e: ExpressionNode, level: Level, s: Lexed, i: nat)
    requires WellFormed(s)
    requires var p := PrintExpression(e, level);
      Occurs(s, i, p) && Ready(s, i + |p|) && Closes(level, Peek(s, i + |p|))
    ensures ParsedAtLevel(s, i, level, e, i + |PrintExpression(e, level)|)
    decreases e, Rank(e, level), 2
  {
    var end := i + |PrintExpression(e, level)|;
    if e.Binary? && level == OpLevel(e.op) {
      SpineParses(e.op, e.leftOperand, e.rightOperand, s, i, end);
    } else if e.Binary? && level < 3 {
      PrintedExpressionParses(e, level + 1, s, i);
      LevelUp(e, level, s, i, end);
    } else if e.Binary? {
      ParenthesisedParses(e, s, i);
    } else {
      assert PrintExpression(e, level) == PrintExpression(e, 3);
      UnaryParses(e, s, i);
      if level < 3 {
        UnaryUp(e, level, s, i, end);
      }
    }
  }

  /** The printed tokens of a negation, variable or constant read as a
      unary expression. */
  lemma {:induction false} UnaryParses(e: ExpressionNode, s: Lexed, i: nat)
    requires !e.Binary? && WellFormed(s)
    requires Occurs(s, i, PrintExpression(e, 3)) && Ready(s, i + |PrintExpression(e, 3)|) && Closes(3, Peek(s, i + |PrintExpression(e, 3)|))
    ensures UnaryAt(s, i) == Parsed(e, i + |PrintExpression(e, 3)|)
    decreases e, 0, 1
  {
    match e
    case Not(operand) =>
      NotParses(operand, s, i);
    case Variable(identifier) =>
      VariableParses(identifier, s, i);
    case Constant(number) =>
      TokenOf(s, i, PrintExpression(e, 3), 0);
      MatchNext(s, i, Number);
  }

  /** What parsing at a level yields for e ending at `end`: at unary level
      e itself, at a binary level the operator loop continuing from e. */
  ghost predicate ParsedAtLevel(s: Lexed, i: nat, level: Level, e: ExpressionNode, end: nat)
    requires WellFormed(s) && Ready(s, i) && Ready(s, end)
  {
    if level == 3 then UnaryAt(s, i) == Parsed(e, end)
    else LevelAt(s, i, level) == RestAt(s, level, e, end)
  }

  /** A level hands what the next tighter level parsed to its own loop. */
  lemma LevelUp(e: ExpressionNode, level: Level, s: Lexed, i: nat, end: nat)
    requires WellFormed(s) && Ready(s, i) && Ready(s, end) && level < 3
    requires ParsedAtLevel(s, i, level + 1, e, end) && Closes(level, Peek(s, end))
    ensures ParsedAtLevel(s, i, level, e, end)
  {
    if level + 1 < 3 {
      RestEnds(s, level + 1, e, end);
    }
  }

  /** A unary-level expression read at any binary level. */
  lemma {:induction false} UnaryUp(e: ExpressionNode, level: Level, s: Lexed, i: nat, end: nat)
    requires WellFormed(s) && Ready(s, i) && Ready(s, end) && level < 3
    requires UnaryAt(s, i) == Parsed(e, end) && Closes(level, Peek(s, end))
    ensures ParsedAtLevel(s, i, level, e, end)
    decreases 3 - level
  {
    if level < 2 {
      UnaryUp(e, level + 1, s, i, end);
    }
    LevelUp(e, level, s, i, end);
  }

  /** "~" followed by an operand's tokens. */
  lemma {:induction false} NotParses(operand: ExpressionNode, s: Lexed, i: nat)
    requires WellFormed(s)
    requires Occurs(s, i, PrintExpression(Not(operand), 3)) && Ready(s, i + |PrintExpression(Not(operand), 3)|) && Closes(3, Peek(s, i + |PrintExpression(Not(operand), 3)|))
    ensures UnaryAt(s, i) == Parsed(Not(operand), i + |PrintExpression(Not(operand), 3)|)
    decreases Not(operand), 0, 0
  {
    OccursSplit(s, i, [Punct(NOT)], PrintExpression(operand, 3));
    TokenOf(s, i, [Punct(NOT)], 0);
    PrintedExpressionParses(operand, 3, s, i + 1);
    MatchNext(s, i, NOT);
  }

  /** A behaviour identifier's tokens as an operand. */
  lemma VariableParses(b: BehaviourIdentifierNode, s: Lexed, i: nat)
    requires WellFormed(s)
    requires Occurs(s, i, PrintBehaviourIdentifier(b)) && Ready(s, i + |PrintBehaviourIdentifier(b)|) && Peek(s, i + |PrintBehaviourIdentifier(b)|) != Dot && Peek(s, i + |PrintBehaviourIdentifier(b)|) != LeftBracket
    ensures UnaryAt(s, i) == Parsed(Variable(b), i + |PrintBehaviourIdentifier(b)|)
  {
    var end := i + |PrintBehaviourIdentifier(b)|;
    BehaviourIdentifierRoundTrip(b, s, i, end);
    NameLeads(b, s, i);
    VariableFromParts(b, s, i, end);
  }

  /** A printed behaviour identifier starts with its name. */
  lemma NameLeads(b: BehaviourIdentifierNode, s: Lexed, i: nat)
    requires Occurs(s, i, PrintBehaviourIdentifier(b))
    ensures i < |s.tokens| && s.tokens[i] == NameToken(b.identifier)
  {
    TokenOf(s, i, PrintBehaviourIdentifier(b), 0);
  }

  lemma VariableFromParts(b: BehaviourIdentifierNode, s: Lexed, i: nat, end: nat)
    requires WellFormed(s) && Ready(s, i) && s.tokens[i] == NameToken(b.identifier)
    requires BehaviourIdentifierAt(s, i) == Parsed(b, end)
    ensures UnaryAt(s, i) == Parsed(Variable(b), end)
  {
  }

  /** `left op right` at op's level: the left operand is parsed with the
      loop continuing at op, and the right one closes. */
  lemma {:induction false} SpineParses(op: BinaryOperator, left: ExpressionNode, right: ExpressionNode, s: Lexed, i: nat, end: nat)
    requires WellFormed(s)
    requires Occurs(s, i, PrintExpression(Binary(op, left, right), OpLevel(op)))
    requires end == i + |PrintExpression(Binary(op, left, right), OpLevel(op))|
    requires Ready(s, end) && Closes(OpLevel(op), Peek(s, end))
    ensures ParsedAtLevel(s, i, OpLevel(op), Binary(op, left, right), end)
    decreases Binary(op, left, right), 0, 0
  {
    SpineLayout(op, left, right, s, i);
    var m := i + |PrintExpression(left, OpLevel(op))|;
    OperandParses(left, OpLevel(op), s, i, m);
    OperandParses(right, OpLevel(op) + 1, s, m + 1, end);
    SpineJoin(op, left, right, s, i, m, end);
  }

  /** PrintedExpressionParses with the end of the printed tokens named. */
  lemma {:induction false} OperandParses(e: ExpressionNode, level: Level, s: Lexed, i: nat, end: nat)
    requires WellFormed(s)
    requires Occurs(s, i, PrintExpression(e, level)) && end == i + |PrintExpression(e, level)|
    requires Ready(s, end) && Closes(level, Peek(s, end))
    ensures ParsedAtLevel(s, i, level, e, end)
    decreases e, Rank(e, level), 3
  {
    PrintedExpressionParses(e, level, s, i);
  }

  /** Where the operands and the operator of `left op right` lie. */
  lemma SpineLayout(op: BinaryOperator, left: ExpressionNode, right: ExpressionNode, s: Lexed, i: nat)
    requires Occurs(s, i, PrintExpression(Binary(op, left, right), OpLevel(op)))
    ensures var l := PrintExpression(left, OpLevel(op));
      var r := PrintExpression(right, OpLevel(op) + 1);
      && |PrintExpression(Binary(op, left, right), OpLevel(op))| == |l| + 1 + |r|
      && Occurs(s, i, l) && s.tokens[i + |l|] == Punct(OpToken(op)) && Occurs(s, i + |l| + 1, r)
  {
    var l := PrintExpression(left, OpLevel(op));
    var r := PrintExpression(right, OpLevel(op) + 1);
    assert PrintExpression(Binary(op, left, right), OpLevel(op)) == l + [Punct(OpToken(op))] + r;
    OccursSplit(s, i, l + [Punct(OpToken(op))], r);
    OccursSplit(s, i, l, [Punct(OpToken(op))]);
    TokenOf(s, i + |l|, [Punct(OpToken(op))], 0);
  }

  /** The two operands parsed at their levels and the operator between them
      make the binary expression at the operator's level. */
  lemma SpineJoin(op: BinaryOperator, left: ExpressionNode, right: ExpressionNode, s: Lexed, i: nat, m: nat, end: nat)
    requires WellFormed(s) && i <= m && m + 1 < |s.tokens| && Ready(s, end)
    requires s.tokens[m].tokenType == OpToken(op)
    requires ParsedAtLevel(s, i, OpLevel(op), left, m)
    requires ParsedAtLevel(s, m + 1, OpLevel(op) + 1, right, end)
    requires Closes(OpLevel(op), Peek(s, end))
    ensures ParsedAtLevel(s, i, OpLevel(op), Binary(op, left, right), end)
  {
    if OpLevel(op) + 1 < 3 {
      RestEnds(s, OpLevel(op) + 1, right, end);
    }
    RestStep(s, op, left, right, m, end);
  }

  /** One turn of an operator loop: `op right` joins the left operand. */
  lemma RestStep(s: Lexed, op: BinaryOperator, left: ExpressionNode, right: ExpressionNode, m: nat, end: nat)
    requires WellFormed(s) && m + 1 < |s.tokens| && Ready(s, end)
    requires s.tokens[m].tokenType == OpToken(op)
    requires LevelAt(s, m + 1, OpLevel(op) + 1) == Parsed(right, end)
    ensures RestAt(s, OpLevel(op), left, m) == RestAt(s, OpLevel(op), Binary(op, left, right), end)
  {
    MatchNext(s, m, OpToken(op));
  }

  /** A parenthesised expression at unary level is the inner expression. */
  lemma {:induction false} ParenthesisedParses(e: ExpressionNode, s: Lexed, i: nat)
    requires e.Binary? && WellFormed(s)
    requires Occurs(s, i, PrintExpression(e, 3)) && Ready(s, i + |PrintExpression(e, 3)|)
    ensures UnaryAt(s, i) == Parsed(e, i + |PrintExpression(e, 3)|)
    decreases e, Rank(e, 3), 0
  {
    var inner := PrintExpression(e, 0);
    assert PrintExpression(e, 3) == [Punct(LeftParenthesis)] + inner + [Punct(RightParenthesis)];
    OccursSplit(s, i, [Punct(LeftParenthesis)] + inner, [Punct(RightParenthesis)]);
    OccursSplit(s, i, [Punct(LeftParenthesis)], inner);
    var close := i + 1 + |inner|;
    TokenOf(s, close, [Punct(RightParenthesis)], 0);
    TokenOf(s, i, [Punct(LeftParenthesis)], 0);
    PrintedExpressionParses(e, 0, s, i + 1);
    RestEnds(s, 0, e, close);
    GroupParses(s, i, e, close);
  }

  /** `( inner )` read as a primary expression is the inner expression. */
  lemma GroupParses(s: Lexed, i: nat, e: ExpressionNode, close: nat)
    requires WellFormed(s) && i + 1 < close && close + 1 < |s.tokens|
    requires s.tokens[i].tokenType == LeftParenthesis && s.tokens[close].tokenType == RightParenthesis
    requires ExpressionAt(s, i + 1) == Parsed(e, close)
    ensures UnaryAt(s, i) == Parsed(e, close + 1)
  {
    MatchNext(s, i, LeftParenthesis);
    MatchNext(s, close, RightParenthesis);
  }

  /** Printing an expression and parsing the tokens gives it back: the
      parser's precedence and associativity are exactly those the printer
      assumes, and parentheses only group. */
  lemma ExpressionRoundTrip(e: ExpressionNode, s: Lexed, i: nat)
    requires WellFormed(s)
    requires Occurs(s, i, PrintExpression(e, 0)) && Ready(s, i + |PrintExpression(e, 0)|) && Ends(0, Peek(s, i + |PrintExpression(e, 0)|))
    ensures ExpressionAt(s, i) == Parsed(e, i + |PrintExpression(e, 0)|)
  {
    PrintedExpressionParses(e, 0, s, i);
    RestEnds(s, 0, e, i + |PrintExpression(e, 0)|);
  }

  /** A plain name as an operand. */
  function Name(name: string): ExpressionNode
  {
    Variable(BehaviourIdentifierNode(name, None, None))
  }

  /** An operand other than a binary expression prints alike at every level. */
  lemma OperandPrinted(e: ExpressionNode, level: Level)
    requires !e.Binary?
    ensures PrintExpression(e, level) == PrintExpression(e, 3)
  {
  }

  /** A binary expression at a looser level prints as at its own level. */
  lemma {:induction false} BinaryPrinted(op: BinaryOperator, left: ExpressionNode, right: ExpressionNode, level: Level)
    requires level <= OpLevel(op)
    ensures PrintExpression(Binary(op, left, right), level)
         == PrintExpression(left, OpLevel(op)) + [Punct(OpToken(op))] + PrintExpression(right, OpLevel(op) + 1)
    decreases OpLevel(op) - level
  {
    if level < OpLevel(op) {
      BinaryPrinted(op, left, right, level + 1);
    }
  }

  /** `a & b & c` groups to the left. */
  lemma AndGroupsLeft(a: string, b: string, c: string, s: Lexed, i: nat)
    requires WellFormed(s)
    requires Occurs(s, i, [NameToken(a), Punct(AND), NameToken(b), Punct(AND), NameToken(c)])
    requires Ready(s, i + 5) && Ends(0, Peek(s, i + 5))
    ensures ExpressionAt(s, i) == Parsed(Binary(And, Binary(And, Name(a), Name(b)), Name(c)), i + 5)
  {
    var e := Binary(And, Binary(And, Name(a), Name(b)), Name(c));
    BinaryPrinted(And, Binary(And, Name(a), Name(b)), Name(c), 0);
    BinaryPrinted(And, Name(a), Name(b), 2);
    OperandPrinted(Name(a), 2);
    OperandPrinted(Name(b), 3);
    assert PrintExpression(e, 0) == [NameToken(a), Punct(AND), NameToken(b), Punct(AND), NameToken(c)];
    ExpressionRoundTrip(e, s, i);
  }

  /** `a | b & c` binds the '&' first. */
  lemma AndBindsTighterThanOr(a: string, b: string, c: string, s: Lexed, i: nat)
    requires WellFormed(s)
    requires Occurs(s, i, [NameToken(a), Punct(OR), NameToken(b), Punct(AND), NameToken(c)])
    requires Ready(s, i + 5) && Ends(0, Peek(s, i + 5))
    ensures ExpressionAt(s, i) == Parsed(Binary(Or, Name(a), Binary(And, Name(b), Name(c))), i + 5)
  {
    var e := Binary(Or, Name(a), Binary(And, Name(b), Name(c)));
    BinaryPrinted(And, Name(b), Name(c), 1);
    OperandPrinted(Name(a), 0);
    OperandPrinted(Name(b), 2);
    assert PrintExpression(e, 0) == [NameToken(a), Punct(OR), NameToken(b), Punct(AND), NameToken(c)];
    ExpressionRoundTrip(e, s, i);
  }

  /** `a ^ b | c` binds the '^' first. */
  lemma XorBindsTighterThanOr(a: string, b: string, c: string, s: Lexed, i: nat)
    requires WellFormed(s)
    requires Occurs(s, i, [NameToken(a), Punct(XOR), NameToken(b), Punct(OR), NameToken(c)])
    requires Ready(s, i + 5) && Ends(0, Peek(s, i + 5))
    ensures ExpressionAt(s, i) == Parsed(Binary(Or, Binary(Xor, Name(a), Name(b)), Name(c)), i + 5)
  {
    var e := Binary(Or, Binary(Xor, Name(a), Name(b)), Name(c));
    BinaryPrinted(Xor, Name(a), Name(b), 0);
    OperandPrinted(Name(a), 1);
    OperandPrinted(Name(b), 2);
    OperandPrinted(Name(c), 1);
    assert PrintExpression(e, 0) == [NameToken(a), Punct(XOR), NameToken(b), Punct(OR), NameToken(c)];
    ExpressionRoundTrip(e, s, i);
  }

  /** `~a & b` negates only a. */
  lemma NotBindsTightest(a: string, b: string, s: Lexed, i: nat)
    requires WellFormed(s)
    requires Occurs(s, i, [Punct(NOT), NameToken(a), Punct(AND), NameToken(b)])
    requires Ready(s, i + 4) && Ends(0, Peek(s, i + 4))
    ensures ExpressionAt(s, i) == Parsed(Binary(And, Not(Name(a)), Name(b)), i + 4)
  {
    var e := Binary(And, Not(Name(a)), Name(b));
    BinaryPrinted(And, Not(Name(a)), Name(b), 0);
    OperandPrinted(Not(Name(a)), 2);
    assert PrintExpression(e, 0) == [Punct(NOT), NameToken(a), Punct(AND), NameToken(b)];
    ExpressionRoundTrip(e, s, i);
  }

  /** `(a | b) & c`: parentheses override precedence and leave no node. */
  lemma ParenthesesGroup(a: string, b: string, c: string, s: Lexed, i: nat)
    requires WellFormed(s)
    requires Occurs(s, i, [Punct(LeftParenthesis), NameToken(a), Punct(OR), NameToken(b),
                           Punct(RightParenthesis), Punct(AND), NameToken(c)])
    requires Ready(s, i + 7) && Ends(0, Peek(s, i + 7))
    ensures ExpressionAt(s, i) == Parsed(Binary(And, Binary(Or, Name(a), Name(b)), Name(c)), i + 7)
  {
    var e := Binary(And, Binary(Or, Name(a), Name(b)), Name(c));
    BinaryPrinted(And, Binary(Or, Name(a), Name(b)), Name(c), 0);
    var group := Binary(Or, Name(a), Name(b));
    assert PrintExpression(group, 2) == PrintExpression(group, 3)
      == [Punct(LeftParenthesis)] + PrintExpression(group, 0) + [Punct(RightParenthesis)];
    BinaryPrinted(Or, Name(a), Name(b), 0);
    OperandPrinted(Name(a), 0);
    OperandPrinted(Name(b), 1);
    assert PrintExpression(e, 0) == [Punct(LeftParenthesis), NameToken(a), Punct(OR), NameToken(b),
                                     Punct(RightParenthesis), Punct(AND), NameToken(c)];
    ExpressionRoundTrip(e, s, i);
  }

  // Statements.

  function PrintStatement(st: BehaviourStatementNode): seq<Token>
  {
    PrintBehaviourIdentifier(st.behaviourIdentifier) + [Punct(Equals)]
      + PrintExpression(st.expression, 0) + [Punct(Semicolon)]
  }

  function PrintStatements(statements: seq<BehaviourStatementNode>): seq<Token>
  {
    if |statements| == 0 then [] else PrintStatement(statements[0]) + PrintStatements(statements[1..])
  }

  lemma StatementFromParts(s: Lexed, i: nat, target: BehaviourIdentifierNode, n: nat,
                           expression: ExpressionNode, m: nat)
    requires WellFormed(s) && Ready(s, i) && n + 1 < m && m + 1 < |s.tokens|
    requires BehaviourIdentifierAt(s, i) == Parsed(target, n) && s.tokens[n].tokenType == Equals
    requires ExpressionAt(s, n + 1) == Parsed(expression, m) && s.tokens[m].tokenType == Semicolon
    ensures StatementAt(s, i) == Parsed(BehaviourStatementNode(target, expression), m + 1)
  {
    MatchNext(s, n, Equals);
    MatchNext(s, m, Semicolon);
  }

  lemma StatementRoundTrip(st: BehaviourStatementNode, s: Lexed, i: nat)
    requires WellFormed(s)
    requires Occurs(s, i, PrintStatement(st)) && Ready(s, i + |PrintStatement(st)|)
    ensures StatementAt(s, i) == Parsed(st, i + |PrintStatement(st)|)
  {
    var b := PrintBehaviourIdentifier(st.behaviourIdentifier);
    var e := PrintExpression(st.expression, 0);
    OccursSplit(s, i, b + [Punct(Equals)] + e, [Punct(Semicolon)]);
    OccursSplit(s, i, b + [Punct(Equals)], e);
    OccursSplit(s, i, b, [Punct(Equals)]);
    TokenOf(s, i + |b|, [Punct(Equals)], 0);
    TokenOf(s, i + |b| + 1 + |e|, [Punct(Semicolon)], 0);
    StatementFromPieces(st, s, i, i + |b|, i + |b| + 1 + |e|);
  }

  /** A statement whose pieces each occur in place parses back; n and m are the positions of `=` and `;`. */
  lemma StatementFromPieces(st: BehaviourStatementNode, s: Lexed, i: nat, n: nat, m: nat)
    requires WellFormed(s)
    requires Occurs(s, i, PrintBehaviourIdentifier(st.behaviourIdentifier)) && n == i + |PrintBehaviourIdentifier(st.behaviourIdentifier)|
    requires n < |s.tokens| && s.tokens[n] == Punct(Equals)
    requires Occurs(s, n + 1, PrintExpression(st.expression, 0)) && m == n + 1 + |PrintExpression(st.expression, 0)|
    requires m + 1 < |s.tokens| && s.tokens[m] == Punct(Semicolon)
    ensures StatementAt(s, i) == Parsed(st, m + 1)
  {
    TargetBefore(st.behaviourIdentifier, s, i, Equals, n);
    ExpressionBefore(st.expression, s, n + 1, Semicolon, m);
    StatementFromParts(s, i, st.behaviourIdentifier, n, st.expression, m);
  }

  /** A behaviour identifier followed, at position end, by a token of type t. */
  lemma TargetBefore(b: BehaviourIdentifierNode, s: Lexed, i: nat, t: TokenType, end: nat)
    requires WellFormed(s) && t != Dot && t != LeftBracket
    requires Occurs(s, i, PrintBehaviourIdentifier(b)) && end == i + |PrintBehaviourIdentifier(b)|
    requires end < |s.tokens| && s.tokens[end] == Punct(t)
    ensures BehaviourIdentifierAt(s, i) == Parsed(b, end)
  {
    BehaviourIdentifierRoundTrip(b, s, i, end);
  }

  /** An expression followed, at position end, by a token of type t that ends it. */
  lemma ExpressionBefore(e: ExpressionNode, s: Lexed, i: nat, t: TokenType, end: nat)
    requires WellFormed(s) && Ends(0, t)
    requires Occurs(s, i, PrintExpression(e, 0)) && end == i + |PrintExpression(e, 0)|
    requires end < |s.tokens| && s.tokens[end] == Punct(t)
    ensures ExpressionAt(s, i) == Parsed(e, end)
  {
    ExpressionRoundTrip(e, s, i);
  }

  lemma {:induction false} StatementsRoundTrip(statements: seq<BehaviourStatementNode>, s: Lexed, i: nat, end: nat)
    requires WellFormed(s)
    requires Occurs(s, i, PrintStatements(statements)) && end == i + |PrintStatements(statements)|
    requires Ready(s, end) && Peek(s, end) != Identifier
    ensures StatementsAt(s, i) == Parsed(statements, end)
    decreases |statements|, 1
  {
    if |statements| > 0 {
      StatementsCons(statements, s, i, end);
    }
  }

  /** Where the first statement and the rest of a printed list lie. */
  lemma StatementsLayout(statements: seq<BehaviourStatementNode>, s: Lexed, i: nat)
    requires |statements| > 0 && Occurs(s, i, PrintStatements(statements))
    ensures Occurs(s, i, PrintStatement(statements[0]))
    ensures Occurs(s, i + |PrintStatement(statements[0])|, PrintStatements(statements[1..]))
    ensures |PrintStatement(statements[0])| + |PrintStatements(statements[1..])| == |PrintStatements(statements)|
  {
    OccursSplit(s, i, PrintStatement(statements[0]), PrintStatements(statements[1..]));
  }

  /** The rest of the list parses, and then the first statement completes it. */
  lemma {:induction false} StatementsCons(statements: seq<BehaviourStatementNode>, s: Lexed, i: nat, end: nat)
    requires WellFormed(s) && |statements| > 0
    requires Occurs(s, i, PrintStatements(statements)) && end == i + |PrintStatements(statements)|
    requires Ready(s, end) && Peek(s, end) != Identifier
    ensures StatementsAt(s, i) == Parsed(statements, end)
    decreases |statements|, 0
  {
    StatementsLayout(statements, s, i);
    var n := i + |PrintStatement(statements[0])|;
    StatementsRoundTrip(statements[1..], s, n, end);
    StatementsFirst(statements, s, i, n, end);
  }

  /** With the rest of the list parsed, the first statement completes it. */
  lemma StatementsFirst(statements: seq<BehaviourStatementNode>, s: Lexed, i: nat, n: nat, end: nat)
    requires WellFormed(s) && |statements| > 0
    requires Occurs(s, i, PrintStatement(statements[0])) && n == i + |PrintStatement(statements[0])|
    requires n <= end && Ready(s, end) && StatementsAt(s, n) == Parsed(statements[1..], end)
    ensures StatementsAt(s, i) == Parsed(statements, end)
  {
    StatementFirst(statements[0], s, i);
    StatementsStep(s, i, statements[0], statements[1..], n, end);
    HeadTail(statements);
  }

  /** A printed statement parses back, and its first token is an identifier. */
  lemma StatementFirst(st: BehaviourStatementNode, s: Lexed, i: nat)
    requires WellFormed(s)
    requires Occurs(s, i, PrintStatement(st)) && Ready(s, i + |PrintStatement(st)|)
    ensures Ready(s, i) && Peek(s, i) == Identifier
    ensures StatementAt(s, i) == Parsed(st, i + |PrintStatement(st)|)
  {
    TokenOf(s, i, PrintStatement(st), 0);
    StatementRoundTrip(st, s, i);
  }

  /** One turn of the statement loop. */
  lemma StatementsStep(s: Lexed, i: nat, first: BehaviourStatementNode, rest: seq<BehaviourStatementNode>, n: nat, end: nat)
    requires WellFormed(s) && Ready(s, i) && Ready(s, n) && s.tokens[i].tokenType == Identifier
    requires StatementAt(s, i) == Parsed(first, n) && StatementsAt(s, n) == Parsed(rest, end)
    ensures StatementsAt(s, i) == Parsed([first] + rest, end)
  {
  }


  // Types, identifier lists and declarations.

  function PrintTypeSpecifier(specifier: TypeSpecifierNode): seq<Token>
  {
    match specifier
    case InSpecifier => [Punct(InKeyword)]
    case OutSpecifier => [Punct(OutKeyword)]
    case BlockSpecifier(name) => [Punct(BlockKeyword), NameToken(name)]
  }

  function WidthTokens(width: Option<NumberNode>): seq<Token>
  {
    match width
    case None => []
    case Some(w) => [Punct(LeftBracket), NumberLiteral(w), Punct(RightBracket)]
  }

  function PrintType(t: TypeNode): seq<Token>
  {
    PrintTypeSpecifier(t.typeSpecifier) + WidthTokens(t.width)
  }

  lemma TypeSpecifierRoundTrip(specifier: TypeSpecifierNode, s: Lexed, i: nat)
    requires WellFormed(s)
    requires Occurs(s, i, PrintTypeSpecifier(specifier)) && Ready(s, i + |PrintTypeSpecifier(specifier)|)
    ensures TypeSpecifierAt(s, i) == Parsed(specifier, i + |PrintTypeSpecifier(specifier)|)
  {
    var p := PrintTypeSpecifier(specifier);
    TokenOf(s, i, p, 0);
    MatchNext(s, i, p[0].tokenType);
    if specifier.BlockSpecifier? {
      TokenOf(s, i, p, 1);
      MatchNext(s, i + 1, Identifier);
    }
  }

  lemma TypeWidthRoundTrip(width: Option<NumberNode>, s: Lexed, i: nat)
    requires WellFormed(s)
    requires Occurs(s, i, WidthTokens(width)) && Ready(s, i + |WidthTokens(width)|) && (width.None? ==> Peek(s, i) != LeftBracket)
    ensures TypeWidth(s, i) == Parsed(width, i + |WidthTokens(width)|)
  {
    if width.Some? {
      var p := WidthTokens(width);
      TokenOf(s, i, p, 0);
      TokenOf(s, i, p, 1);
      TokenOf(s, i, p, 2);
      MatchNext(s, i, LeftBracket);
      MatchNext(s, i + 1, Number);
      MatchNext(s, i + 2, RightBracket);
    }
  }

  lemma TypeRoundTrip(t: TypeNode, s: Lexed, i: nat, end: nat)
    requires WellFormed(s)
    requires Occurs(s, i, PrintType(t)) && end == i + |PrintType(t)|
    requires Ready(s, end) && Peek(s, end) != LeftBracket
    ensures TypeAt(s, i) == Parsed(t, end)
  {
    var specifier := PrintTypeSpecifier(t.typeSpecifier);
    OccursSplit(s, i, specifier, WidthTokens(t.width));
    TypeSpecifierRoundTrip(t.typeSpecifier, s, i);
    TypeWidthRoundTrip(t.width, s, i + |specifier|);
  }

  /** The ", name" pairs after the first name of a list. */
  function IdentifierTail(names: seq<string>): seq<Token>
  {
    if |names| == 0 then [] else [Punct(Comma), NameToken(names[0])] + IdentifierTail(names[1..])
  }

  function PrintIdentifierList(names: seq<string>): seq<Token>
    requires |names| > 0
  {
    [NameToken(names[0])] + IdentifierTail(names[1..])
  }

  lemma {:induction false} IdentifierTailRoundTrip(names: seq<string>, s: Lexed, i: nat)
    requires WellFormed(s)
    requires Occurs(s, i, IdentifierTail(names)) && Ready(s, i + |IdentifierTail(names)|) && Peek(s, i + |IdentifierTail(names)|) != Comma
    ensures IdentifierRest(s, i) == Parsed(names, i + |IdentifierTail(names)|)
    decreases |names|
  {
    if |names| > 0 {
      var pair := [Punct(Comma), NameToken(names[0])];
      OccursSplit(s, i, pair, IdentifierTail(names[1..]));
      TokenOf(s, i, pair, 0);
      TokenOf(s, i, pair, 1);
      MatchNext(s, i, Comma);
      MatchNext(s, i + 1, Identifier);
      IdentifierTailRoundTrip(names[1..], s, i + 2);
      assert [names[0]] + names[1..] == names;
    }
  }

  lemma IdentifierListRoundTrip(names: seq<string>, s: Lexed, i: nat, end: nat)
    requires WellFormed(s) && |names| > 0
    requires Occurs(s, i, PrintIdentifierList(names)) && end == i + |PrintIdentifierList(names)|
    requires Ready(s, end) && Peek(s, end) != Comma
    ensures IdentifierListAt(s, i) == Parsed(names, end)
  {
    OccursSplit(s, i, [NameToken(names[0])], IdentifierTail(names[1..]));
    TokenOf(s, i, [NameToken(names[0])], 0);
    MatchNext(s, i, Identifier);
    IdentifierTailRoundTrip(names[1..], s, i + 1);
    assert [names[0]] + names[1..] == names;
  }

  /** A tree the printer can print: every declaration names something,
      as the grammar's identifier list demands. */
  predicate Printable(d: DeclarationNode)
  {
    |d.identifiers| > 0
  }

  function PrintDeclaration(d: DeclarationNode): seq<Token>
    requires Printable(d)
  {
    PrintType(d.typeNode) + PrintIdentifierList(d.identifiers) + [Punct(Semicolon)]
  }

  function PrintDeclarations(declarations: seq<DeclarationNode>): seq<Token>
    requires forall k :: 0 <= k < |declarations| ==> Printable(declarations[k])
  {
    if |declarations| == 0 then []
    else PrintDeclaration(declarations[0]) + PrintDeclarations(declarations[1..])
  }

  lemma DeclarationFromParts(s: Lexed, i: nat, t: TypeNode, n: nat, names: seq<string>, m: nat)
    requires WellFormed(s) && Ready(s, i) && n < m && m + 1 < |s.tokens|
    requires TypeAt(s, i) == Parsed(t, n) && IdentifierListAt(s, n) == Parsed(names, m)
    requires s.tokens[m].tokenType == Semicolon
    ensures DeclarationAt(s, i) == Parsed(DeclarationNode(t, names), m + 1)
  {
    MatchNext(s, m, Semicolon);
  }

  lemma DeclarationRoundTrip(d: DeclarationNode, s: Lexed, i: nat)
    requires WellFormed(s) && Printable(d)
    requires Occurs(s, i, PrintDeclaration(d)) && Ready(s, i + |PrintDeclaration(d)|)
    ensures DeclarationAt(s, i) == Parsed(d, i + |PrintDeclaration(d)|)
  {
    var t := PrintType(d.typeNode);
    var names := PrintIdentifierList(d.identifiers);
    OccursSplit(s, i, t + names, [Punct(Semicolon)]);
    OccursSplit(s, i, t, names);
    var n := i + |t|;
    var m := n + |names|;
    TokenOf(s, n, names, 0);
    TokenOf(s, m, [Punct(Semicolon)], 0);
    DeclarationFromPieces(d, s, i, n, m);
  }

  /** A declaration whose pieces each occur in place parses back; n is
      where its names start and m the position of its ';'. */
  lemma DeclarationFromPieces(d: DeclarationNode, s: Lexed, i: nat, n: nat, m: nat)
    requires WellFormed(s) && Printable(d)
    requires Occurs(s, i, PrintType(d.typeNode)) && n == i + |PrintType(d.typeNode)|
    requires n < |s.tokens| && s.tokens[n] == PrintIdentifierList(d.identifiers)[0]
    requires Occurs(s, n, PrintIdentifierList(d.identifiers)) && m == n + |PrintIdentifierList(d.identifiers)|
    requires m + 1 < |s.tokens| && s.tokens[m] == Punct(Semicolon)
    ensures DeclarationAt(s, i) == Parsed(d, m + 1)
  {
    TypeRoundTrip(d.typeNode, s, i, n);
    IdentifierListRoundTrip(d.identifiers, s, n, m);
    DeclarationFromParts(s, i, d.typeNode, n, d.identifiers, m);
  }

  lemma {:induction false} DeclarationsRoundTrip(declarations: seq<DeclarationNode>, s: Lexed, i: nat, end: nat)
    requires WellFormed(s) && forall k :: 0 <= k < |declarations| ==> Printable(declarations[k])
    requires Occurs(s, i, PrintDeclarations(declarations)) && end == i + |PrintDeclarations(declarations)|
    requires Ready(s, end) && !StartsDeclaration(Peek(s, end))
    ensures DeclarationsAt(s, i) == Parsed(declarations, end)
    decreases |declarations|, 1
  {
    if |declarations| > 0 {
      DeclarationsCons(declarations, s, i, end);
    }
  }

  /** Where the first declaration and the rest of a printed list lie. */
  lemma DeclarationsLayout(declarations: seq<DeclarationNode>, s: Lexed, i: nat)
    requires |declarations| > 0 && forall k :: 0 <= k < |declarations| ==> Printable(declarations[k])
    requires Occurs(s, i, PrintDeclarations(declarations))
    ensures Occurs(s, i, PrintDeclaration(declarations[0]))
    ensures Occurs(s, i + |PrintDeclaration(declarations[0])|, PrintDeclarations(declarations[1..]))
    ensures |PrintDeclaration(declarations[0])| + |PrintDeclarations(declarations[1..])| == |PrintDeclarations(declarations)|
  {
    OccursSplit(s, i, PrintDeclaration(declarations[0]), PrintDeclarations(declarations[1..]));
  }

  /** The first declaration parses, and the loop goes on with the rest. */
  lemma {:induction false} DeclarationsCons(declarations: seq<DeclarationNode>, s: Lexed, i: nat, end: nat)
    requires WellFormed(s) && |declarations| > 0
    requires forall k :: 0 <= k < |declarations| ==> Printable(declarations[k])
    requires Occurs(s, i, PrintDeclarations(declarations)) && end == i + |PrintDeclarations(declarations)|
    requires Ready(s, end) && !StartsDeclaration(Peek(s, end))
    ensures DeclarationsAt(s, i) == Parsed(declarations, end)
    decreases |declarations|, 0
  {
    DeclarationsLayout(declarations, s, i);
    var n := i + |PrintDeclaration(declarations[0])|;
    DeclarationsRoundTrip(declarations[1..], s, n, end);
    DeclarationsFirst(declarations, s, i, n, end);
  }

  /** With the rest of the list parsed, the first declaration completes it. */
  lemma DeclarationsFirst(declarations: seq<DeclarationNode>, s: Lexed, i: nat, n: nat, end: nat)
    requires WellFormed(s) && |declarations| > 0
    requires forall k :: 0 <= k < |declarations| ==> Printable(declarations[k])
    requires Occurs(s, i, PrintDeclaration(declarations[0])) && n == i + |PrintDeclaration(declarations[0])|
    requires n <= end && Ready(s, end) && DeclarationsAt(s, n) == Parsed(declarations[1..], end)
    ensures DeclarationsAt(s, i) == Parsed(declarations, end)
  {
    DeclarationFirst(declarations[0], s, i);
    DeclarationsStep(s, i, declarations[0], declarations[1..], n, end);
    HeadTail(declarations);
  }

  /** A printed declaration parses back, and its first token starts a declaration. */
  lemma DeclarationFirst(d: DeclarationNode, s: Lexed, i: nat)
    requires WellFormed(s) && Printable(d)
    requires Occurs(s, i, PrintDeclaration(d)) && Ready(s, i + |PrintDeclaration(d)|)
    ensures Ready(s, i) && StartsDeclaration(Peek(s, i))
    ensures DeclarationAt(s, i) == Parsed(d, i + |PrintDeclaration(d)|)
  {
    DeclarationStart(d);
    TokenOf(s, i, PrintDeclaration(d), 0);
    DeclarationRoundTrip(d, s, i);
  }

  /** A printed declaration starts with a token that starts a declaration. */
  lemma DeclarationStart(d: DeclarationNode)
    requires Printable(d)
    ensures |PrintDeclaration(d)| > 0 && StartsDeclaration(PrintDeclaration(d)[0].tokenType)
  {
    assert PrintDeclaration(d)[0] == PrintTypeSpecifier(d.typeNode.typeSpecifier)[0];
  }

  /** One turn of the declaration loop. */
  lemma DeclarationsStep(s: Lexed, i: nat, first: DeclarationNode, rest: seq<DeclarationNode>, n: nat, end: nat)
    requires WellFormed(s) && Ready(s, i) && Ready(s, n) && StartsDeclaration(s.tokens[i].tokenType)
    requires DeclarationAt(s, i) == Parsed(first, n) && DeclarationsAt(s, n) == Parsed(rest, end)
    ensures DeclarationsAt(s, i) == Parsed([first] + rest, end)
  {
  }


  // Blocks and the whole file.

  /** Every declaration of the block names something. */
  predicate BlockPrintable(b: BlockNode)
  {
    forall k :: 0 <= k < |b.declarations| ==> Printable(b.declarations[k])
  }

  function PrintBlock(b: BlockNode): seq<Token>
    requires BlockPrintable(b)
  {
    [Punct(BlockKeyword), NameToken(b.identifier), Punct(LeftBrace)]
      + PrintDeclarations(b.declarations) + PrintStatements(b.behaviourStatements) + [Punct(RightBrace)]
  }

  function PrintBlocks(blocks: seq<BlockNode>): seq<Token>
    requires forall k :: 0 <= k < |blocks| ==> BlockPrintable(blocks[k])
  {
    if |blocks| == 0 then [] else PrintBlock(blocks[0]) + PrintBlocks(blocks[1..])
  }

  /** Every declaration of every block names something. */
  predicate RootPrintable(root: RootNode)
  {
    forall k :: 0 <= k < |root.blocks| ==> BlockPrintable(root.blocks[k])
  }

  /** The tokens of a file: its blocks, then the end of the file. */
  function PrintRoot(root: RootNode): seq<Token>
    requires RootPrintable(root)
  {
    PrintBlocks(root.blocks) + [Punct(EndOfFile)]
  }

  /** 'block' name '{' leads to the block's body. */
  lemma BlockHead(s: Lexed, i: nat, name: string)
    requires WellFormed(s) && HeadAt(s, i, name)
    ensures BlockAt(s, i) == BlockBody(s, name, i + 3)
  {
    MatchNext(s, i, BlockKeyword);
    MatchNext(s, i + 1, Identifier);
    MatchNext(s, i + 2, LeftBrace);
  }

  lemma BodyFromParts(s: Lexed, name: string, i: nat, declarations: seq<DeclarationNode>, n: nat,
                      statements: seq<BehaviourStatementNode>, k: nat)
    requires WellFormed(s) && Ready(s, i) && k + 1 < |s.tokens|
    requires DeclarationsAt(s, i) == Parsed(declarations, n) && Ready(s, n)
    requires StatementsAt(s, n) == Parsed(statements, k) && s.tokens[k].tokenType == RightBrace
    ensures BlockBody(s, name, i) == Parsed(BlockNode(name, declarations, statements), k + 1)
  {
    MatchNext(s, k, RightBrace);
  }

  /** The statements of a block, followed by its '}'. */
  lemma StatementsBeforeBrace(statements: seq<BehaviourStatementNode>, s: Lexed, n: nat, k: nat)
    requires WellFormed(s) && Occurs(s, n, PrintStatements(statements))
    requires k == n + |PrintStatements(statements)| && k < |s.tokens| && s.tokens[k] == Punct(RightBrace)
    ensures Ready(s, n) && !StartsDeclaration(Peek(s, n))
    ensures StatementsAt(s, n) == Parsed(statements, k)
  {
    StatementsRoundTrip(statements, s, n, k);
    if |statements| > 0 {
      StatementsStart(statements);
      TokenOf(s, n, PrintStatements(statements), 0);
    }
  }

  /** A printed nonempty statement list starts with an identifier. */
  lemma StatementsStart(statements: seq<BehaviourStatementNode>)
    requires |statements| > 0
    ensures |PrintStatements(statements)| > 0 && PrintStatements(statements)[0].tokenType == Identifier
  {
    var b := statements[0].behaviourIdentifier;
    assert PrintStatements(statements)[0] == PrintBehaviourIdentifier(b)[0];
  }

  /** A block whose pieces each occur in place parses back. */
  /** The pieces of b printed in place from i: its head, its body up to d
      and k, and its '}' at k. */
  ghost predicate BlockLaidOut(b: BlockNode, s: Lexed, i: nat, d: nat, k: nat)
  {
    match b
    case BlockNode(name, _, _) => HeadAt(s, i, name) && BodyLaidOut(b, s, i + 3, d, k)
  }

  lemma BlockFromPieces(b: BlockNode, s: Lexed, i: nat, d: nat, k: nat)
    requires WellFormed(s) && BlockLaidOut(b, s, i, d, k)
    ensures BlockAt(s, i) == Parsed(b, k + 1)
  {
    BlockHeadOf(b, s, i, d, k);
    BlockBodyOf(b, s, i, d, k);
  }

  lemma BlockHeadOf(b: BlockNode, s: Lexed, i: nat, d: nat, k: nat)
    requires WellFormed(s) && BlockLaidOut(b, s, i, d, k)
    ensures i + 3 < |s.tokens| && BlockAt(s, i) == BlockBody(s, b.identifier, i + 3)
  {
    BlockHead(s, i, b.identifier);
  }

  lemma BlockBodyOf(b: BlockNode, s: Lexed, i: nat, d: nat, k: nat)
    requires WellFormed(s) && BlockLaidOut(b, s, i, d, k)
    ensures i + 3 < |s.tokens| && BlockBody(s, b.identifier, i + 3) == Parsed(b, k + 1)
  {
    BodyFromPieces(b, s, i + 3, d, k);
  }

  /** Declarations and statements that occur in place, followed by '}',
      parse back as the block's body. */
  /** The tokens "block name {" at i. */
  ghost predicate HeadAt(s: Lexed, i: nat, name: string)
  {
    && i + 3 < |s.tokens|
    && s.tokens[i] == Punct(BlockKeyword) && s.tokens[i + 1] == NameToken(name)
    && s.tokens[i + 2] == Punct(LeftBrace)
  }

  /** b's printed declarations at j, its statements at d, and its '}' at k. */
  ghost predicate BodyLaidOut(b: BlockNode, s: Lexed, j: nat, d: nat, k: nat)
  {
    && BlockPrintable(b) && j <= d <= k && k + 1 < |s.tokens|
    && Occurs(s, j, PrintDeclarations(b.declarations)) && d == j + |PrintDeclarations(b.declarations)|
    && Occurs(s, d, PrintStatements(b.behaviourStatements)) && k == d + |PrintStatements(b.behaviourStatements)|
    && s.tokens[k] == Punct(RightBrace)
  }

  lemma BodyFromPieces(b: BlockNode, s: Lexed, j: nat, d: nat, k: nat)
    requires WellFormed(s) && BlockPrintable(b) && BodyLaidOut(b, s, j, d, k)
    ensures BlockBody(s, b.identifier, j) == Parsed(b, k + 1)
  {
    StatementsBeforeBrace(b.behaviourStatements, s, d, k);
    DeclarationsRoundTrip(b.declarations, s, j, d);
    BodyOf(b, s, j, d, k);
  }

  /** The parsed declarations and statements and the closing brace make
      the block's body. */
  lemma BodyOf(b: BlockNode, s: Lexed, i: nat, d: nat, k: nat)
    requires WellFormed(s) && i <= d <= k && k + 1 < |s.tokens|
    requires DeclarationsAt(s, i) == Parsed(b.declarations, d)
    requires StatementsAt(s, d) == Parsed(b.behaviourStatements, k) && s.tokens[k] == Punct(RightBrace)
    ensures BlockBody(s, b.identifier, i) == Parsed(b, k + 1)
  {
    BodyFromParts(s, b.identifier, i, b.declarations, d, b.behaviourStatements, k);
  }

  lemma BlockRoundTrip(b: BlockNode, s: Lexed, i: nat)
    requires WellFormed(s) && BlockPrintable(b)
    requires Occurs(s, i, PrintBlock(b)) && Ready(s, i + |PrintBlock(b)|)
    ensures BlockAt(s, i) == Parsed(b, i + |PrintBlock(b)|)
  {
    var d, k := BlockLayout(b, s, i, i + |PrintBlock(b)|);
    BlockFromPieces(b, s, i, d, k);
  }

  /** Where the head, the declarations, the statements and the '}' of a
      printed block lie. */
  lemma BlockLayout(b: BlockNode, s: Lexed, i: nat, end: nat) returns (d: nat, k: nat)
    requires BlockPrintable(b) && Occurs(s, i, PrintBlock(b)) && end == i + |PrintBlock(b)| && end < |s.tokens|
    ensures BlockLaidOut(b, s, i, d, k) && k + 1 == end
  {
    var head := [Punct(BlockKeyword), NameToken(b.identifier), Punct(LeftBrace)];
    d := i + 3 + |PrintDeclarations(b.declarations)|;
    k := d + |PrintStatements(b.behaviourStatements)|;
    OccursFour(s, i, head, PrintDeclarations(b.declarations), PrintStatements(b.behaviourStatements), [Punct(RightBrace)], i + 3, d, k);
    LaidOutFrom(b, s, i, d, k);
  }

  /** The pieces of a block, each occurring in place, make its layout. */
  lemma LaidOutFrom(b: BlockNode, s: Lexed, i: nat, d: nat, k: nat)
    requires BlockPrintable(b)
    requires Occurs(s, i, [Punct(BlockKeyword), NameToken(b.identifier), Punct(LeftBrace)])
    requires Occurs(s, i + 3, PrintDeclarations(b.declarations)) && d == i + 3 + |PrintDeclarations(b.declarations)|
    requires Occurs(s, d, PrintStatements(b.behaviourStatements)) && k == d + |PrintStatements(b.behaviourStatements)|
    requires Occurs(s, k, [Punct(RightBrace)]) && k + 1 < |s.tokens|
    ensures BlockLaidOut(b, s, i, d, k)
  {
    var head := [Punct(BlockKeyword), NameToken(b.identifier), Punct(LeftBrace)];
    TokenOf(s, i, head, 0);
    TokenOf(s, i, head, 1);
    TokenOf(s, i, head, 2);
    TokenOf(s, k, [Punct(RightBrace)], 0);
  }

  lemma {:induction false} BlocksRoundTrip(blocks: seq<BlockNode>, s: Lexed, i: nat, end: nat)
    requires WellFormed(s) && forall k :: 0 <= k < |blocks| ==> BlockPrintable(blocks[k])
    requires Occurs(s, i, PrintBlocks(blocks)) && end == i + |PrintBlocks(blocks)|
    requires Ready(s, end) && Peek(s, end) != BlockKeyword
    ensures BlocksAt(s, i) == Parsed(blocks, end)
    decreases |blocks|, 1
  {
    if |blocks| == 0 {
      NoMoreBlocks(s, i);
    } else {
      BlocksCons(blocks, s, i, end);
    }
  }

  /** The block loop stops at a lookahead other than 'block'. */
  lemma NoMoreBlocks(s: Lexed, i: nat)
    requires WellFormed(s) && Ready(s, i) && Peek(s, i) != BlockKeyword
    ensures BlocksAt(s, i) == Parsed([], i)
  {
  }

  /** Where the first block and the rest of a printed list lie. */
  lemma BlocksLayout(blocks: seq<BlockNode>, s: Lexed, i: nat)
    requires |blocks| > 0 && forall k :: 0 <= k < |blocks| ==> BlockPrintable(blocks[k])
    requires Occurs(s, i, PrintBlocks(blocks))
    ensures Occurs(s, i, PrintBlock(blocks[0]))
    ensures Occurs(s, i + |PrintBlock(blocks[0])|, PrintBlocks(blocks[1..]))
    ensures |PrintBlock(blocks[0])| + |PrintBlocks(blocks[1..])| == |PrintBlocks(blocks)|
  {
    OccursSplit(s, i, PrintBlock(blocks[0]), PrintBlocks(blocks[1..]));
  }

  /** The rest of the list parses, and then the first block completes it. */
  lemma {:induction false} BlocksCons(blocks: seq<BlockNode>, s: Lexed, i: nat, end: nat)
    requires WellFormed(s) && |blocks| > 0
    requires forall k :: 0 <= k < |blocks| ==> BlockPrintable(blocks[k])
    requires Occurs(s, i, PrintBlocks(blocks)) && end == i + |PrintBlocks(blocks)|
    requires Ready(s, end) && Peek(s, end) != BlockKeyword
    ensures BlocksAt(s, i) == Parsed(blocks, end)
    decreases |blocks|, 0
  {
    BlocksLayout(blocks, s, i);
    var n := i + |PrintBlock(blocks[0])|;
    BlocksRoundTrip(blocks[1..], s, n, end);
    BlocksFirst(blocks, s, i, n, end);
  }

  /** With the rest of the list parsed, the first block completes it. */
  lemma BlocksFirst(blocks: seq<BlockNode>, s: Lexed, i: nat, n: nat, end: nat)
    requires WellFormed(s) && |blocks| > 0
    requires forall k :: 0 <= k < |blocks| ==> BlockPrintable(blocks[k])
    requires Occurs(s, i, PrintBlock(blocks[0])) && n == i + |PrintBlock(blocks[0])|
    requires n <= end && Ready(s, end) && BlocksAt(s, n) == Parsed(blocks[1..], end)
    ensures BlocksAt(s, i) == Parsed(blocks, end)
  {
    BlockFirst(blocks[0], s, i);
    BlocksStep(s, i, blocks[0], blocks[1..], n, end);
    HeadTail(blocks);
  }

  /** A printed block parses back, and its first token is 'block'. */
  lemma BlockFirst(b: BlockNode, s: Lexed, i: nat)
    requires WellFormed(s) && BlockPrintable(b)
    requires Occurs(s, i, PrintBlock(b)) && Ready(s, i + |PrintBlock(b)|)
    ensures Ready(s, i) && Peek(s, i) == BlockKeyword
    ensures BlockAt(s, i) == Parsed(b, i + |PrintBlock(b)|)
  {
    TokenOf(s, i, PrintBlock(b), 0);
    BlockRoundTrip(b, s, i);
  }

  /** One turn of the block loop. */
  lemma BlocksStep(s: Lexed, i: nat, first: BlockNode, rest: seq<BlockNode>, n: nat, end: nat)
    requires WellFormed(s) && Ready(s, i) && Ready(s, n) && s.tokens[i].tokenType == BlockKeyword
    requires BlockAt(s, i) == Parsed(first, n) && BlocksAt(s, n) == Parsed(rest, end)
    ensures BlocksAt(s, i) == Parsed([first] + rest, end)
  {
  }


  /** Parsing the printed tokens of a file gives the file back. */
  lemma RootRoundTrip(root: RootNode, s: Lexed)
    requires RootPrintable(root) && s.tokens == PrintRoot(root)
    ensures ParseTokens(s) == Success(root)
  {
    var blocks := PrintBlocks(root.blocks);
    assert s.tokens[|blocks|] == Punct(EndOfFile);
    assert Occurs(s, 0, blocks) by {
      forall k | 0 <= k < |blocks|
        ensures s.tokens[k] == blocks[k]
      {
        assert (blocks + [Punct(EndOfFile)])[k] == blocks[k];
      }
    }
    BlocksRoundTrip(root.blocks, s, 0, |blocks|);
  }

  // Every tree the parser yields can be printed, and printing it gives
  // tokens that parse back to the same tree.

  lemma {:induction false} ParsedDeclarationsPrintable(s: Lexed, i: nat)
    requires WellFormed(s) && Ready(s, i) && DeclarationsAt(s, i).Parsed?
    ensures forall k :: 0 <= k < |DeclarationsAt(s, i).value| ==> Printable(DeclarationsAt(s, i).value[k])
    decreases |s.tokens| - i
  {
    if StartsDeclaration(Peek(s, i)) {
      var n := DeclarationAt(s, i).next;
      ParsedDeclarationsPrintable(s, n);
    }
  }

  lemma ParsedBlockPrintable(s: Lexed, i: nat)
    requires WellFormed(s) && Ready(s, i) && BlockAt(s, i).Parsed?
    ensures BlockPrintable(BlockAt(s, i).value)
  {
    var k := MatchAt(s, IdentifierAt(s, MatchAt(s, i, BlockKeyword).next).next, LeftBrace).next;
    ParsedDeclarationsPrintable(s, k);
  }

  lemma {:induction false} ParsedBlocksPrintable(s: Lexed, i: nat)
    requires WellFormed(s) && Ready(s, i) && BlocksAt(s, i).Parsed?
    ensures forall k :: 0 <= k < |BlocksAt(s, i).value| ==> BlockPrintable(BlocksAt(s, i).value[k])
    decreases |s.tokens| - i
  {
    if Peek(s, i) == BlockKeyword {
      ParsedBlockPrintable(s, i);
      ParsedBlocksPrintable(s, BlockAt(s, i).next);
    }
  }

  /** Printing a parsed file and parsing the print gives the same tree. */
  lemma PrintParsedRoundTrip(s: Lexed, root: RootNode)
    requires WellFormed(s) && ParseTokens(s) == Success(root)
    ensures RootPrintable(root)
    ensures ParseTokens(Lexed(PrintRoot(root), None)) == Success(root)
  {
    ParsedBlocksPrintable(s, 0);
    RootRoundTrip(root, Lexed(PrintRoot(root), None));
  }
}
