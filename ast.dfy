/** The abstract syntax tree built by the parser (src/frontend/AST.h).
    Annotations the semantic analyser writes into the C++ nodes (result
    types, subscript indices, symbol tables, generated blocks) are not
    stored here: they are recomputed by the analyser's typing functions
    or kept beside the tree, indexed by block position. */
module AST {
  import opened Wrappers

  /** A number literal: its value and the width given after '#', 0 when absent. */
  datatype NumberNode = NumberNode(value: nat, width: nat)

  datatype SubscriptNode = SubscriptNode(start: NumberNode, end: Option<NumberNode>)

  /** `name`, `name.property`, optionally followed by a subscript. */
  datatype BehaviourIdentifierNode = BehaviourIdentifierNode(
    identifier: string,
    propertyIdentifier: Option<string>,
    subscript: Option<SubscriptNode>)

  datatype BinaryOperator = And | Or | Xor

  datatype ExpressionNode =
    | Binary(op: BinaryOperator, leftOperand: ExpressionNode, rightOperand: ExpressionNode)
    | Not(operand: ExpressionNode)
    | Variable(identifier: BehaviourIdentifierNode)
    | Constant(number: NumberNode)

  datatype BehaviourStatementNode = BehaviourStatementNode(
    behaviourIdentifier: BehaviourIdentifierNode,
    expression: ExpressionNode)

  datatype TypeSpecifierNode = InSpecifier | OutSpecifier | BlockSpecifier(identifier: string)

  datatype TypeNode = TypeNode(typeSpecifier: TypeSpecifierNode, width: Option<NumberNode>)

  datatype DeclarationNode = DeclarationNode(typeNode: TypeNode, identifiers: seq<string>)

  datatype BlockNode = BlockNode(
    identifier: string,
    declarations: seq<DeclarationNode>,
    behaviourStatements: seq<BehaviourStatementNode>)

  datatype RootNode = RootNode(blocks: seq<BlockNode>)
}
