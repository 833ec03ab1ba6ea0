/** Scoping and type checking (src/frontend/SemanticAnalyzer.cpp). The
    per-node typing is a set of functions over a snapshot of the symbol
    tables; declaring symbols and walking the blocks are methods that fill
    the tables. */
module SemanticAnalyzer {
  import opened Wrappers
  import opened AST
  import opened Symbols

  // The analyzer's diagnostics. Kept out of the function bodies so that the
  // verifier does not unfold the string literals at every use.
  const InvalidSubscriptRange := "Invalid subscript range: end before start"
  const BlockUsedAsSignal := "Block used as signal"
  const PropertyAccessOnSignal := "Property access on signal"
  const OperandWidthMismatch := "Operand widths don't match"
  const WriteOnlySource := "Write-only signal used as source operand"
  const NumberWithoutWidth := "Number literal without width specifier used in expression"
  const ReadOnlyTarget := "Read-only signal used as target operand"
  const AssignmentWidthMismatch := "Operand types of assignment expression don't match"
  const ZeroWidth := "Signal declared with invalid width of 0"
  function UndeclaredIdentifier(name: string): string { "Use of undeclared identifier \"" + name + "\"" }
  function NoSuchProperty(name: string, property: string): string { "\"" + name + "\" has no property \"" + property + "\"" }
  function InaccessibleProperty(name: string, property: string): string {
    "Property \"" + property + "\" of \"" + name + "\" is not accessible from other blocks"
  }
  function SubscriptExceedsWidth(index: nat, width: nat): string {
    "Subscript index " + Decimal(index) + " exceeds type width " + Decimal(width)
  }

  function NoSuchBlock(name: string): string { "There is no block named \"" + name + "\"" }
  function DuplicateSignal(name: string): string { "Duplicate declaration of signal \"" + name + "\"" }

  datatype AccessType = Read | Write

  /** The C++ ExpressionResultType: readable or writable, and the width in bits. */
  datatype ExpressionResultType = ExpressionResultType(accessType: AccessType, width: nat)

  /** The symbols visible while checking one block's statements, as values:
      the block's own table, its parent (the root table) and the table of
      every top-level block it may instantiate, by position. */
  datatype Scope = Scope(local: map<string, Symbol>, parent: map<string, Symbol>, blocks: seq<map<string, Symbol>>)

  /** SymbolTable::findRecursive on a snapshot: the block's table, then its parent. */
  function Lookup(scope: Scope, name: string): Option<Symbol>
  {
    if name in scope.local then Some(scope.local[name])
    else if name in scope.parent then Some(scope.parent[name])
    else None
  }

  /** The snapshot of a table, its parent and the block tables. */
  function ScopeOf(table: SymbolTable, blockTables: seq<SymbolTable>): (s: Scope)
    reads table`symbols, (if table.parent == null then {} else {table.parent})`symbols, blockTables
    ensures forall name :: Lookup(s, name) == table.FindRecursive(name)
    ensures s.local == table.symbols
    ensures s.parent == if table.parent == null then map[] else table.parent.symbols
    ensures |s.blocks| == |blockTables|
    ensures forall i :: 0 <= i < |blockTables| ==> s.blocks[i] == blockTables[i].symbols
  {
    Scope(table.symbols, if table.parent == null then map[] else table.parent.symbols,
          seq(|blockTables|, i requires 0 <= i < |blockTables| reads blockTables => blockTables[i].symbols))
  }

  /** The symbol is at least one bit wide and instantiates only a block
      below blockCount. */
  ghost predicate SaneSymbol(symbol: Symbol, blockCount: nat)
  {
    symbol.typeData.width > 0
    && (symbol.typeData.kind.Block? ==> symbol.typeData.kind.block < blockCount)
  }

  /** Every symbol of the table is sane. */
  ghost predicate SaneMap(symbols: map<string, Symbol>, blockCount: nat)
  {
    forall name :: name in symbols ==> SaneSymbol(symbols[name], blockCount)
  }

  /** Every table of the scope is sane with respect to the blocks it lists. */
  ghost predicate SaneScope(scope: Scope)
  {
    && SaneMap(scope.local, |scope.blocks|)
    && SaneMap(scope.parent, |scope.blocks|)
    && forall i :: 0 <= i < |scope.blocks| ==> SaneMap(scope.blocks[i], |scope.blocks|)
  }

  /** [start] or [start:end]: end defaults to start and may not exceed it. */
  function AnalyzeSubscript(subscript: SubscriptNode): (r: Result<(nat, nat)>)
    ensures r.Success? <==> subscript.end.None? || subscript.end.value.value <= subscript.start.value
    ensures r.Success? ==> r.value.0 == subscript.start.value && r.value.1 <= r.value.0
    ensures r.Success? && subscript.end.None? ==> r.value.1 == r.value.0
    ensures r.Success? && subscript.end.Some? ==> r.value.1 == subscript.end.value.value
  {
    var startIndex := subscript.start.value;
    var endIndex := if subscript.end.Some? then subscript.end.value.value else startIndex;
    if endIndex > startIndex then Failure(InvalidSubscriptRange)
    else Success((startIndex, endIndex))
  }

  /** The access and type an identifier names before any subscript: an input
      is read and an output written inside its own block; through an
      instance, the nested block's inputs are written and its outputs read. */
  function ResolveIdentifier(bi: BehaviourIdentifierNode, scope: Scope): (r: Result<(AccessType, TypeData)>)
    requires SaneScope(scope)
    ensures r.Success? ==> Lookup(scope, bi.identifier).Some?
    ensures r.Success? && bi.propertyIdentifier.None? ==>
      r.value.1 == Lookup(scope, bi.identifier).value.typeData
      && r.value.0 == (if r.value.1.kind.In? then Read else Write)
    ensures r.Success? && bi.propertyIdentifier.Some? ==>
      var kind := Lookup(scope, bi.identifier).value.typeData.kind;
      && kind.Block?
      && bi.propertyIdentifier.value in scope.blocks[kind.block]
      && r.value.1 == scope.blocks[kind.block][bi.propertyIdentifier.value].typeData
      && r.value.0 == (if r.value.1.kind.In? then Write else Read)
    ensures r.Success? ==> !r.value.1.kind.Block? && r.value.1.width > 0
  {
    match Lookup(scope, bi.identifier)
    case None => Failure(UndeclaredIdentifier(bi.identifier))
    case Some(symbol) =>
      if bi.propertyIdentifier.None? then
        match symbol.typeData.kind
        case In => Success((Read, symbol.typeData))
        case Out => Success((Write, symbol.typeData))
        case Block(_) => Failure(BlockUsedAsSignal)
      else if !symbol.typeData.kind.Block? then
        Failure(PropertyAccessOnSignal)
      else
        var propertyTable := scope.blocks[symbol.typeData.kind.block];
        var property := bi.propertyIdentifier.value;
        if property !in propertyTable then
          Failure(NoSuchProperty(bi.identifier, property))
        else
          match propertyTable[property].typeData.kind
          case In => Success((Write, propertyTable[property].typeData))
          case Out => Success((Read, propertyTable[property].typeData))
          case Block(_) => Failure(InaccessibleProperty(bi.identifier, property))
  }


  /** The lowest bit an identifier selects: the subscript's end index, or 0. */
  function SliceOffset(bi: BehaviourIdentifierNode): nat
  {
    match bi.subscript
    case None => 0
    case Some(s) => if s.end.Some? then s.end.value.value else s.start.value
  }

  /** Resolves the identifier and checks its subscript: a successful result
      is a slice of at least one bit that lies inside the declared signal. */
  function AnalyzeBehaviourIdentifier(bi: BehaviourIdentifierNode, scope: Scope)
    : (r: Result<ExpressionResultType>)
    requires SaneScope(scope)
    ensures r.Success? <==>
      && ResolveIdentifier(bi, scope).Success?
      && (bi.subscript.Some? ==>
            AnalyzeSubscript(bi.subscript.value).Success?
            && bi.subscript.value.start.value < ResolveIdentifier(bi, scope).value.1.width)
    ensures r.Success? ==>
      var resolved := ResolveIdentifier(bi, scope).value;
      && r.value.accessType == resolved.0
      && r.value.width > 0
      && SliceOffset(bi) + r.value.width <= resolved.1.width
      && (bi.subscript.None? ==> r.value.width == resolved.1.width)
  {
    var resolved :- ResolveIdentifier(bi, scope);
    if bi.subscript.None? then
      Success(ExpressionResultType(resolved.0, resolved.1.width))
    else
      var indices :- AnalyzeSubscript(bi.subscript.value);
      if indices.0 >= resolved.1.width then
        Failure(SubscriptExceedsWidth(indices.0, resolved.1.width))
      else
        Success(ExpressionResultType(resolved.0, indices.0 - indices.1 + 1))
  }

  /** Every operand must be readable and both operands of a binary operator
      equally wide; the result is as wide as its operands. */
  function AnalyzeExpression(e: ExpressionNode, scope: Scope)
    : (r: Result<ExpressionResultType>)
    requires SaneScope(scope)
    ensures r.Success? ==> r.value.accessType == Read && r.value.width > 0
    ensures e.Binary? ==>
      && (r.Success? <==> AnalyzeExpression(e.leftOperand, scope).Success? && AnalyzeExpression(e.rightOperand, scope).Success?
                          && AnalyzeExpression(e.leftOperand, scope).value.width == AnalyzeExpression(e.rightOperand, scope).value.width)
      && (r.Success? ==> r.value == AnalyzeExpression(e.leftOperand, scope).value)
      && (AnalyzeExpression(e.leftOperand, scope).Success? && AnalyzeExpression(e.rightOperand, scope).Success?
          && AnalyzeExpression(e.leftOperand, scope).value.width != AnalyzeExpression(e.rightOperand, scope).value.width
          ==> r == Failure(OperandWidthMismatch))
    ensures e.Not? ==> r == AnalyzeExpression(e.operand, scope)
    ensures e.Variable? ==>
      && (r.Success? <==> AnalyzeBehaviourIdentifier(e.identifier, scope).Success?
                          && AnalyzeBehaviourIdentifier(e.identifier, scope).value.accessType == Read)
      && (r.Success? ==> r == AnalyzeBehaviourIdentifier(e.identifier, scope))
    ensures e.Constant? ==>
      && (r.Success? <==> e.number.width > 0)
      && (r.Success? ==> r.value == ExpressionResultType(Read, e.number.width))
      && (r.Failure? ==> r.error == NumberWithoutWidth)
    decreases e
  {
    match e
    case Binary(_, left, right) =>
      // The C++ also rejects a write-only operand here; the recursive call
      // has already rejected it, so that check never fires.
      var leftType :- AnalyzeExpression(left, scope);
      var rightType :- AnalyzeExpression(right, scope);
      if leftType.width != rightType.width then Failure(OperandWidthMismatch)
      else Success(leftType)
    case Not(operand) =>
      AnalyzeExpression(operand, scope)
    case Variable(bi) =>
      var t :- AnalyzeBehaviourIdentifier(bi, scope);
      if t.accessType != Read then Failure(WriteOnlySource)
      else Success(t)
    case Constant(number) =>
      if number.width == 0 then Failure(NumberWithoutWidth)
      else Success(ExpressionResultType(Read, number.width))
  }

  /** `target = expression;`: the target must be writable, the source
      readable, and both equally wide. The result is the source's type. */
  function AnalyzeBehaviourStatement(statement: BehaviourStatementNode, scope: Scope)
    : (r: Result<ExpressionResultType>)
    requires SaneScope(scope)
    ensures r.Success? <==>
      && AnalyzeBehaviourIdentifier(statement.behaviourIdentifier, scope).Success?
      && AnalyzeBehaviourIdentifier(statement.behaviourIdentifier, scope).value.accessType == Write
      && AnalyzeExpression(statement.expression, scope).Success?
      && AnalyzeExpression(statement.expression, scope).value.width
         == AnalyzeBehaviourIdentifier(statement.behaviourIdentifier, scope).value.width
    ensures r.Success? ==> r == AnalyzeExpression(statement.expression, scope)
  {
    var targetType :- AnalyzeBehaviourIdentifier(statement.behaviourIdentifier, scope);
    if targetType.accessType != Write then Failure(ReadOnlyTarget)
    else
      // A successfully analysed expression is always readable, so the C++
      // check for a write-only source never fires.
      var sourceType :- AnalyzeExpression(statement.expression, scope);
      if targetType.width != sourceType.width then Failure(AssignmentWidthMismatch)
      else Success(sourceType)
  }

  /** The symbol type a declaration gives against a map of visible block
      types: the width defaults to 1 and may not be 0; a block type must
      name a registered block. A registered type is always a block, so the
      C++ check for a non-block type never fires. */
  function TypeIn(typeNode: TypeNode, types: map<string, TypeSymbol>): (r: Result<TypeData>)
    ensures r.Success? <==>
      && (typeNode.typeSpecifier.BlockSpecifier? ==> typeNode.typeSpecifier.identifier in types)
      && (typeNode.width.Some? ==> typeNode.width.value.value > 0)
    ensures r.Success? ==>
      && r.value.width > 0
      && r.value.width == (if typeNode.width.None? then 1 else typeNode.width.value.value)
    ensures r.Success? ==> match typeNode.typeSpecifier
      case InSpecifier => r.value.kind == In
      case OutSpecifier => r.value.kind == Out
      case BlockSpecifier(name) => r.value.kind == Block(types[name].block)
  {
    var kind :- match typeNode.typeSpecifier
      case InSpecifier => Success(In)
      case OutSpecifier => Success(Out)
      case BlockSpecifier(name) =>
        if name in types then Success(Block(types[name].block)) else Failure(NoSuchBlock(name));
    if typeNode.width.None? then Success(TypeData(kind, 1))
    else if typeNode.width.value.value == 0 then Failure(ZeroWidth)
    else Success(TypeData(kind, typeNode.width.value.value))
  }

  /** The block types visible from a table: its own, then its parent's. */
  function VisibleTypes(table: SymbolTable): (types: map<string, TypeSymbol>)
    reads table`types, (if table.parent == null then {} else {table.parent})`types
    ensures forall name :: table.FindTypeRecursive(name) == if name in types then Some(types[name]) else None
  {
    if table.parent == null then table.types else table.parent.types + table.types
  }

  /** analyzeType: the symbol type a declaration gives in a table, where a
      block type is looked up in the table and then in its parent. */
  function AnalyzeType(typeNode: TypeNode, table: SymbolTable): (r: Result<TypeData>)
    reads table`types, (if table.parent == null then {} else {table.parent})`types
    ensures r.Success? <==>
      && (typeNode.typeSpecifier.BlockSpecifier? ==> table.FindTypeRecursive(typeNode.typeSpecifier.identifier).Some?)
      && (typeNode.width.Some? ==> typeNode.width.value.value > 0)
    ensures r.Success? ==>
      && r.value.width > 0
      && r.value.width == (if typeNode.width.None? then 1 else typeNode.width.value.value)
    ensures r.Success? ==> match typeNode.typeSpecifier
      case InSpecifier => r.value.kind == In
      case OutSpecifier => r.value.kind == Out
      case BlockSpecifier(name) => r.value.kind == Block(table.FindTypeRecursive(name).value.block)
  {
    TypeIn(typeNode, VisibleTypes(table))
  }

  /** The symbols a list of identifiers declares with one shared type. */
  function DeclaredSymbols(identifiers: seq<string>, typeData: TypeData): (r: seq<Symbol>)
    ensures |r| == |identifiers|
    ensures forall i :: 0 <= i < |r| ==> r[i] == Symbol(identifiers[i], typeData)
  {
    if identifiers == [] then []
    else
      var n := |identifiers| - 1;
      DeclaredSymbols(identifiers[..n], typeData) + [Symbol(identifiers[n], typeData)]
  }

  /** The set of names in a list. */
  function Elems<T>(names: seq<T>): (r: set<T>)
  {
    if names == [] then {} else Elems(names[..|names| - 1]) + {names[|names| - 1]}
  }

  lemma {:induction false} ElemsMeaning<T>(names: seq<T>)
    ensures forall n :: n in Elems(names) <==> n in names
  {
    if names != [] {
      var prefix := names[..|names| - 1];
      ElemsMeaning(prefix);
      assert names == prefix + [names[|names| - 1]];
    }
  }

  lemma {:induction false} NotInElems<T>(names: seq<T>, x: T)
    requires forall k :: 0 <= k < |names| ==> names[k] != x
    ensures x !in Elems(names)
  {
    if names != [] {
      NotInElems(names[..|names| - 1], x);
    }
  }
  lemma DistinctSnoc<T>(names: seq<T>, x: T)
    requires Distinct(names)
    requires forall k :: 0 <= k < |names| ==> names[k] != x
    ensures Distinct(names + [x])
  {
    NotInElems(names, x);
    assert (names + [x])[..|names|] == names;
  }


  /** No identifier occurs twice: each is new with respect to those before it. */
  predicate Distinct<T(==)>(names: seq<T>)
  {
    names == [] ||
      var n := |names| - 1;
      Distinct(names[..n]) && names[n] !in Elems(names[..n])
  }

  lemma {:induction false} DistinctMeaning<T>(names: seq<T>)
    ensures Distinct(names) <==> forall i, j :: 0 <= i < j < |names| ==> names[i] != names[j]
  {
    if names != [] {
      var n := |names| - 1;
      var prefix := names[..n];
      DistinctMeaning(prefix);
      ElemsMeaning(prefix);
      if Distinct(names) {
        forall i, j | 0 <= i < j < |names| ensures names[i] != names[j] {
          if j == n {
            assert prefix[i] in prefix;
          } else {
            assert prefix[i] == names[i] && prefix[j] == names[j];
          }
        }
      } else if names[n] in prefix {
        var i :| 0 <= i < n && prefix[i] == names[n];
        assert names[i] == names[n];
      } else {
        var i, j :| 0 <= i < j < n && prefix[i] == prefix[j];
        assert names[i] == names[j];
      }
    }
  }

  /** A prefix of a list shares its distinctness, and the names of the
      prefix are among the names of the list. */
  lemma {:induction false} PrefixOf<T>(names: seq<T>, k: nat)
    requires k <= |names|
    ensures Distinct(names) ==> Distinct(names[..k])
    ensures Elems(names[..k]) <= Elems(names)
    decreases |names|
  {
    if k < |names| {
      var n := |names| - 1;
      assert names[..n][..k] == names[..k];
      PrefixOf(names[..n], k);
    } else {
      assert names[..k] == names;
    }
  }

  /** Declares one identifier with the declaration's type; fails when the
      name is already declared in this table. */
  method AnalyzeDeclarationIdentifier(identifier: string, table: SymbolTable, typeData: TypeData) returns (r: Outcome)
    requires table.Valid()
    modifies table`symbols, table`orderedSymbols
    ensures table.Valid()
    ensures r.Pass? <==> identifier !in old(table.symbols)
    ensures r.Pass? ==> table.symbols.Keys == old(table.symbols).Keys + {identifier}
    ensures r.Pass? ==> table.orderedSymbols == old(table.orderedSymbols) + [Symbol(identifier, typeData)]
  {
    var success := table.Add(Symbol(identifier, typeData));
    if !success {
      return Fail(DuplicateSignal(identifier));
    }
    return Pass;
  }

  /** Declares every identifier of the declaration with its analysed type.
      Succeeds exactly when the type is valid, the identifiers are distinct
      and none is already declared in the table; the table then lists the
      new symbols after the old ones, in source order. */
  method AnalyzeDeclaration(declaration: DeclarationNode, table: SymbolTable) returns (r: Outcome)
    requires table.Valid()
    modifies table`symbols, table`orderedSymbols
    ensures table.Valid()
    ensures r.Pass? <==>
      && AnalyzeType(declaration.typeNode, table).Success?
      && Distinct(declaration.identifiers)
      && Elems(declaration.identifiers) !! old(table.symbols).Keys
    ensures r.Pass? ==>
      table.orderedSymbols == old(table.orderedSymbols)
        + DeclaredSymbols(declaration.identifiers, AnalyzeType(declaration.typeNode, table).value)
  {
    var typeResult := AnalyzeType(declaration.typeNode, table);
    if typeResult.Failure? {
      return Fail(typeResult.error);
    }
    r := DeclareIdentifiers(declaration.identifiers, table, typeResult.value);
  }

  /** The identifier loop of a declaration's analysis: stops at the first
      identifier already declared. */
  method DeclareIdentifiers(identifiers: seq<string>, table: SymbolTable, typeData: TypeData) returns (r: Outcome)
    requires table.Valid()
    modifies table`symbols, table`orderedSymbols
    ensures table.Valid()
    ensures r.Pass? <==> Distinct(identifiers) && Elems(identifiers) !! old(table.symbols).Keys
    ensures r.Pass? ==> table.orderedSymbols == old(table.orderedSymbols) + DeclaredSymbols(identifiers, typeData)
  {
    var i := 0;
    while i < |identifiers|
      invariant 0 <= i <= |identifiers|
      invariant table.Valid()
      invariant Distinct(identifiers[..i])
      invariant Elems(identifiers[..i]) !! old(table.symbols).Keys
      invariant table.symbols.Keys == old(table.symbols).Keys + Elems(identifiers[..i])
      invariant table.orderedSymbols == old(table.orderedSymbols) + DeclaredSymbols(identifiers[..i], typeData)
    {
      r := AnalyzeDeclarationIdentifier(identifiers[i], table, typeData);
      assert identifiers[..i + 1][..i] == identifiers[..i];
      if r.Fail? {
        PrefixOf(identifiers, i + 1);
        return;
      }
      assert DeclaredSymbols(identifiers[..i + 1], typeData)
        == DeclaredSymbols(identifiers[..i], typeData) + [Symbol(identifiers[i], typeData)];
      i := i + 1;
    }
    assert identifiers[..i] == identifiers;
    return Pass;
  }

  /** The identifiers of a block's declarations, in source order. */
  function DeclaredNames(declarations: seq<DeclarationNode>): seq<string>
  {
    if declarations == [] then []
    else DeclaredNames(declarations[..|declarations| - 1]) + declarations[|declarations| - 1].identifiers
  }

  lemma {:induction false} DeclaredSymbolNames(identifiers: seq<string>, typeData: TypeData)
    ensures SymbolNames(DeclaredSymbols(identifiers, typeData)) == identifiers
  {
    var r := DeclaredSymbols(identifiers, typeData);
    assert SymbolNames(r) == identifiers by {
      forall i | 0 <= i < |r| ensures SymbolNames(r)[i] == identifiers[i] { }
    }
  }

  /** Declaring the symbols of one more declaration extends the declared
      names by its identifiers. */
  lemma DeclaredNamesStep(declarations: seq<DeclarationNode>, i: nat, before: seq<Symbol>, typeData: TypeData)
    requires i < |declarations|
    requires SymbolNames(before) == DeclaredNames(declarations[..i])
    ensures SymbolNames(before + DeclaredSymbols(declarations[i].identifiers, typeData))
      == DeclaredNames(declarations[..i + 1])
  {
    assert declarations[..i + 1][..i] == declarations[..i];
    SymbolNamesAppend(before, DeclaredSymbols(declarations[i].identifiers, typeData));
    DeclaredSymbolNames(declarations[i].identifiers, typeData);
  }

  lemma DeclaredSane(before: seq<Symbol>, identifiers: seq<string>, typeData: TypeData, blockCount: nat)
    requires forall k :: 0 <= k < |before| ==> SaneSymbol(before[k], blockCount)
    requires typeData.width > 0 && (typeData.kind.Block? ==> typeData.kind.block < blockCount)
    ensures var after := before + DeclaredSymbols(identifiers, typeData);
      forall k :: 0 <= k < |after| ==> SaneSymbol(after[k], blockCount)
  {
  }

  /** The root table's block registry after the blocks are registered in
      order: a block name that is already registered keeps its first block,
      and the later duplicate is dropped without an error. */
  function FirstOccurrences(blocks: seq<BlockNode>): map<string, TypeSymbol>
  {
    if blocks == [] then map[]
    else
      var types := FirstOccurrences(blocks[..|blocks| - 1]);
      var name := blocks[|blocks| - 1].identifier;
      if name in types then types else types[name := TypeSymbol(name, |blocks| - 1)]
  }

  /** Every block name is registered, and it refers to the first block of
      that name. */
  lemma {:induction false} FirstOccurrencesMeaning(blocks: seq<BlockNode>)
    ensures forall i :: 0 <= i < |blocks| ==> blocks[i].identifier in FirstOccurrences(blocks)
    ensures forall name :: name in FirstOccurrences(blocks) ==>
      var k := FirstOccurrences(blocks)[name].block;
      && FirstOccurrences(blocks)[name].name == name
      && k < |blocks| && blocks[k].identifier == name
      && forall j :: 0 <= j < k ==> blocks[j].identifier != name
  {
    if blocks != [] {
      var prefix := blocks[..|blocks| - 1];
      FirstOccurrencesMeaning(prefix);
      forall i | 0 <= i < |blocks| - 1 ensures blocks[i] == prefix[i] { }
    }
  }

  /** What analyzeDeclaration demands of each declaration in turn: its type
      is valid, and its identifiers are distinct and not declared by an
      earlier declaration of the block. */
  ghost predicate DeclarationsValid(declarations: seq<DeclarationNode>, types: map<string, TypeSymbol>)
  {
    declarations == [] ||
      var n := |declarations| - 1;
      var identifiers := declarations[n].identifiers;
      && DeclarationsValid(declarations[..n], types)
      && TypeIn(declarations[n].typeNode, types).Success?
      && Distinct(identifiers)
      && Elems(identifiers) !! Elems(DeclaredNames(declarations[..n]))
  }

  /** The declarations are valid exactly when every type is valid and no
      name is declared twice in the block. */
  lemma {:induction false} DeclarationsValidMeaning(declarations: seq<DeclarationNode>, types: map<string, TypeSymbol>)
    ensures DeclarationsValid(declarations, types) <==>
      && Distinct(DeclaredNames(declarations))
      && forall k :: 0 <= k < |declarations| ==> TypeIn(declarations[k].typeNode, types).Success?
  {
    if declarations != [] {
      var n := |declarations| - 1;
      DeclarationsValidMeaning(declarations[..n], types);
      DistinctConcat(DeclaredNames(declarations[..n]), declarations[n].identifiers);
      assert forall k :: 0 <= k < n ==> declarations[..n][k] == declarations[k];
    }
  }

  lemma {:induction false} ValidPrefix(declarations: seq<DeclarationNode>, types: map<string, TypeSymbol>, j: nat)
    requires j <= |declarations| && DeclarationsValid(declarations, types)
    ensures DeclarationsValid(declarations[..j], types)
    decreases |declarations|
  {
    if j < |declarations| {
      var n := |declarations| - 1;
      ValidPrefix(declarations[..n], types, j);
      assert declarations[..n][..j] == declarations[..j];
    } else {
      assert declarations[..j] == declarations;
    }
  }

  /** The symbols a block's declarations declare, in source order, each with
      its declaration's type; a declaration with an invalid type declares
      nothing. */
  ghost function DeclaredList(declarations: seq<DeclarationNode>, types: map<string, TypeSymbol>): seq<Symbol>
  {
    if declarations == [] then []
    else
      var last := declarations[|declarations| - 1];
      DeclaredList(declarations[..|declarations| - 1], types)
        + match TypeIn(last.typeNode, types)
          case Success(typeData) => DeclaredSymbols(last.identifiers, typeData)
          case Failure(_) => []
  }

  /** The map holding a list of symbols by name; a later symbol replaces an
      earlier one of the same name. */
  ghost function MapOf(ordered: seq<Symbol>): map<string, Symbol>
  {
    if ordered == [] then map[]
    else MapOf(ordered[..|ordered| - 1])[ordered[|ordered| - 1].name := ordered[|ordered| - 1]]
  }

  /** A table's map is determined by its ordered list. */
  lemma {:induction false} IndexedMapOf(symbols: map<string, Symbol>, ordered: seq<Symbol>)
    requires Indexed(symbols, ordered)
    ensures symbols == MapOf(ordered)
    decreases |ordered|
  {
    if ordered != [] {
      var n := |ordered| - 1;
      var last := ordered[n];
      IndexedMapOf(symbols - {last.name}, ordered[..n]);
      assert symbols == (symbols - {last.name})[last.name := last];
    }
  }

  /** A table's keys are the names of its ordered list, which are distinct. */
  lemma {:induction false} IndexedNames(symbols: map<string, Symbol>, ordered: seq<Symbol>)
    requires Indexed(symbols, ordered)
    ensures symbols.Keys == Elems(SymbolNames(ordered))
    ensures Distinct(SymbolNames(ordered))
    decreases |ordered|
  {
    if ordered != [] {
      var n := |ordered| - 1;
      var names := SymbolNames(ordered);
      IndexedNames(symbols - {ordered[n].name}, ordered[..n]);
      assert names[..n] == SymbolNames(ordered[..n]);
    }
  }

  lemma {:induction false} ElemsAppend<T>(a: seq<T>, b: seq<T>)
    ensures Elems(a + b) == Elems(a) + Elems(b)
    decreases |b|
  {
    if b == [] {
      assert a + b == a;
    } else {
      var n := |b| - 1;
      assert (a + b)[..|a + b| - 1] == a + b[..n];
      ElemsAppend(a, b[..n]);
    }
  }

  /** A list split in two is distinct exactly when both parts are distinct
      and they share no element. */
  lemma {:induction false} DistinctConcat<T>(a: seq<T>, b: seq<T>)
    ensures Distinct(a + b) <==> Distinct(a) && Distinct(b) && Elems(a) !! Elems(b)
    decreases |b|
  {
    if b == [] {
      assert a + b == a;
    } else {
      var n := |b| - 1;
      assert (a + b)[..|a + b| - 1] == a + b[..n];
      DistinctConcat(a, b[..n]);
      ElemsAppend(a, b[..n]);
    }
  }

  /** The state of the declarations loop after i declarations: the table
      lists their symbols, which are sane, and they are valid. */
  ghost predicate DeclaredUpTo(ordered: seq<Symbol>, declarations: seq<DeclarationNode>, i: nat,
                               types: map<string, TypeSymbol>, blockCount: nat)
    requires i <= |declarations|
  {
    && (forall k :: 0 <= k < |ordered| ==> SaneSymbol(ordered[k], blockCount))
    && SymbolNames(ordered) == DeclaredNames(declarations[..i])
    && ordered == DeclaredList(declarations[..i], types)
    && DeclarationsValid(declarations[..i], types)
  }

  lemma DeclaredUpToStep(symbols: map<string, Symbol>, ordered: seq<Symbol>, declarations: seq<DeclarationNode>,
                         i: nat, types: map<string, TypeSymbol>, blockCount: nat, typeData: TypeData)
    requires i < |declarations| && DeclaredUpTo(ordered, declarations, i, types, blockCount)
    requires Indexed(symbols, ordered)
    requires TypeIn(declarations[i].typeNode, types) == Success(typeData)
    requires Distinct(declarations[i].identifiers) && Elems(declarations[i].identifiers) !! symbols.Keys
    requires forall name :: name in types ==> types[name].block < blockCount
    ensures DeclaredUpTo(ordered + DeclaredSymbols(declarations[i].identifiers, typeData),
                         declarations, i + 1, types, blockCount)
  {
    IndexedNames(symbols, ordered);
    DeclaredNamesStep(declarations, i, ordered, typeData);
    DeclaredSane(ordered, declarations[i].identifiers, typeData, blockCount);
    assert declarations[..i + 1][..i] == declarations[..i];
  }

  /** A declaration that analyzeDeclaration rejects makes the block's
      declarations invalid. */
  lemma DeclaredUpToFail(symbols: map<string, Symbol>, ordered: seq<Symbol>, declarations: seq<DeclarationNode>,
                         i: nat, types: map<string, TypeSymbol>, blockCount: nat)
    requires i < |declarations| && DeclaredUpTo(ordered, declarations, i, types, blockCount)
    requires Indexed(symbols, ordered)
    requires !(&& TypeIn(declarations[i].typeNode, types).Success?
               && Distinct(declarations[i].identifiers)
               && Elems(declarations[i].identifiers) !! symbols.Keys)
    ensures !DeclarationsValid(declarations, types)
  {
    IndexedNames(symbols, ordered);
    assert declarations[..i + 1][..i] == declarations[..i];
    assert !DeclarationsValid(declarations[..i + 1], types);
    if DeclarationsValid(declarations, types) {
      ValidPrefix(declarations, types, i + 1);
    }
  }

  lemma DeclaredUpToAll(symbols: map<string, Symbol>, ordered: seq<Symbol>, declarations: seq<DeclarationNode>,
                        types: map<string, TypeSymbol>, blockCount: nat)
    requires DeclaredUpTo(ordered, declarations, |declarations|, types, blockCount)
    requires Indexed(symbols, ordered)
    ensures DeclarationsValid(declarations, types)
    ensures SaneMap(symbols, blockCount)
    ensures ordered == DeclaredList(declarations, types)
    ensures SymbolNames(ordered) == DeclaredNames(declarations)
  {
    assert declarations[..|declarations|] == declarations;
    SaneFromOrdered(symbols, ordered, blockCount);
  }

  /** Declares the signals of every declaration in order. Succeeds exactly
      when every type is valid and no name is declared twice; the table then
      lists the declared symbols in source order, at least one bit wide and
      referring only to blocks below blockCount. */
  method AnalyzeDeclarations(declarations: seq<DeclarationNode>, table: SymbolTable, blockCount: nat,
                              ghost types: map<string, TypeSymbol>)
    returns (r: Outcome)
    requires table.Valid() && table.orderedSymbols == [] && table.types == map[]
    requires table.parent != null && table.parent.types == types
    requires forall name :: name in types ==> types[name].block < blockCount
    modifies table`symbols, table`orderedSymbols
    ensures table.Valid()
    ensures r.Pass? <==> DeclarationsValid(declarations, types)
    ensures r.Pass? ==>
      && SaneMap(table.symbols, blockCount)
      && table.orderedSymbols == DeclaredList(declarations, types)
      && SymbolNames(table.orderedSymbols) == DeclaredNames(declarations)
  {
    assert declarations[..0] == [];
    var i := 0;
    while i < |declarations|
      invariant 0 <= i <= |declarations|
      invariant table.Valid()
      invariant VisibleTypes(table) == types
      invariant DeclaredUpTo(table.orderedSymbols, declarations, i, types, blockCount)
    {
      ghost var before, symbolsBefore := table.orderedSymbols, table.symbols;
      ghost var typeData := TypeIn(declarations[i].typeNode, types);
      var outcome := AnalyzeDeclaration(declarations[i], table);
      if outcome.Fail? {
        DeclaredUpToFail(symbolsBefore, before, declarations, i, types, blockCount);
        return outcome;
      }
      DeclaredUpToStep(symbolsBefore, before, declarations, i, types, blockCount, typeData.value);
      i := i + 1;
    }
    DeclaredUpToAll(table.symbols, table.orderedSymbols, declarations, types, blockCount);
    return Pass;
  }

  lemma SaneFromOrdered(symbols: map<string, Symbol>, ordered: seq<Symbol>, blockCount: nat)
    requires Indexed(symbols, ordered)
    requires forall k :: 0 <= k < |ordered| ==> SaneSymbol(ordered[k], blockCount)
    ensures SaneMap(symbols, blockCount)
  {
    IndexedMeaning(symbols, ordered);
    forall name | name in symbols ensures SaneSymbol(symbols[name], blockCount) {
      var k :| 0 <= k < |ordered| && ordered[k].name == name;
    }
  }

  lemma SaneGrows(symbols: map<string, Symbol>, n: nat, m: nat)
    requires SaneMap(symbols, n) && n <= m
    ensures SaneMap(symbols, m)
  {
  }

  /** The tables of the first blocks, snapshot k sane with respect to the
      blocks up to and including block k. */
  ghost predicate SaneSnapshots(snapshots: seq<map<string, Symbol>>)
  {
    forall k :: 0 <= k < |snapshots| ==> SaneMap(snapshots[k], k + 1)
  }

  /** The scope of the last of the snapshots: its own table, the symbol-free
      root and every earlier block's table. */
  function BlockScope(snapshots: seq<map<string, Symbol>>): (s: Scope)
    requires |snapshots| > 0
    ensures SaneSnapshots(snapshots) ==> SaneScope(s)
  {
    var s := Scope(snapshots[|snapshots| - 1], map[], snapshots);
    assert SaneSnapshots(snapshots) ==> SaneScope(s) by {
      if SaneSnapshots(snapshots) {
        forall k | 0 <= k < |snapshots| ensures SaneMap(snapshots[k], |snapshots|) {
          SaneGrows(snapshots[k], k + 1, |snapshots|);
        }
      }
    }
    s
  }

  /** Every statement of the block type-checks against the scope of the
      last of the snapshots, which is the block's own table. */
  ghost predicate BlockChecked(block: BlockNode, snapshots: seq<map<string, Symbol>>)
    requires |snapshots| > 0
  {
    && SaneSnapshots(snapshots)
    && forall st :: st in block.behaviourStatements ==>
         AnalyzeBehaviourStatement(st, BlockScope(snapshots)).Success?
  }

  /** analyzeBlock's verdict on a block, given the block types registered
      so far and the symbol maps of the blocks before it: its declarations
      are valid and its statements type-check against the table they
      build. */
  ghost predicate BlockAccepted(block: BlockNode, types: map<string, TypeSymbol>, snapshots: seq<map<string, Symbol>>)
  {
    && DeclarationsValid(block.declarations, types)
    && BlockChecked(block, snapshots + [MapOf(DeclaredList(block.declarations, types))])
  }

  /** Once its declarations are valid and have built the given symbol map,
      a block is accepted exactly when its statements check against it. */
  lemma AcceptedWhenChecked(block: BlockNode, types: map<string, TypeSymbol>,
                            snapshots: seq<map<string, Symbol>>, symbols: map<string, Symbol>)
    requires DeclarationsValid(block.declarations, types)
    requires Indexed(symbols, DeclaredList(block.declarations, types))
    ensures BlockAccepted(block, types, snapshots) <==> BlockChecked(block, snapshots + [symbols])
  {
    IndexedMapOf(symbols, DeclaredList(block.declarations, types));
  }

  /** The tables the analysis builds: the root, which registers the block
      names, and one table per top-level block, in source order. */
  datatype Analysis = Analysis(root: SymbolTable, tables: seq<SymbolTable>)

  /** Analyses one top-level block: registers its name in the root table
      (a duplicate name is silently kept at its first block), creates the
      block's table under the root, declares its signals and checks its
      statements. The block's own name is registered first, so a block may
      declare an instance of itself. Succeeds exactly when the block is
      accepted against the registry that includes its own name. */
  method AnalyzeBlock(block: BlockNode, root: SymbolTable, tables: seq<SymbolTable>,
                      ghost snapshots: seq<map<string, Symbol>>)
    returns (r: Result<SymbolTable>)
    requires root.parent == null && root.symbols == map[]
    requires |snapshots| == |tables| && SaneSnapshots(snapshots)
    requires forall k :: 0 <= k < |tables| ==> tables[k].parent == root && tables[k].symbols == snapshots[k]
    requires forall name :: name in root.types ==> root.types[name].block < |tables|
    modifies root`types
    ensures root.types == if block.identifier in old(root.types) then old(root.types)
                          else old(root.types)[block.identifier := TypeSymbol(block.identifier, |tables|)]
    ensures r.Success? <==> BlockAccepted(block, root.types, snapshots)
    ensures r.Success? ==>
      var table := r.value;
      && fresh(table) && table.parent == root && table.Valid() && table.signals == map[]
      && table.orderedSymbols == DeclaredList(block.declarations, root.types)
      && SymbolNames(table.orderedSymbols) == DeclaredNames(block.declarations)
      && BlockChecked(block, snapshots + [table.symbols])
  {
    var _ := root.AddType(TypeSymbol(block.identifier, |tables|));
    var table := new SymbolTable(root);
    ghost var types := root.types;
    var outcome := AnalyzeDeclarations(block.declarations, table, |tables| + 1, types);
    if outcome.Fail? {
      return Failure(outcome.error);
    }
    ghost var snapshots' := snapshots + [table.symbols];
    AcceptedWhenChecked(block, types, snapshots, table.symbols);
    assert SaneSnapshots(snapshots');
    var checked := CheckStatements(block, table, tables, snapshots);
    if checked.Fail? {
      return Failure(checked.error);
    }
    return Success(table);
  }

  /** Checks a block's statements against the scope of its table: its own
      symbols, the symbol-free root and the tables of the blocks so far. */
  method CheckStatements(block: BlockNode, table: SymbolTable, tables: seq<SymbolTable>,
                         ghost snapshots: seq<map<string, Symbol>>)
    returns (r: Outcome)
    requires table.parent != null && table.parent.symbols == map[]
    requires |snapshots| == |tables| && SaneSnapshots(snapshots + [table.symbols])
    requires forall k :: 0 <= k < |tables| ==> tables[k].symbols == snapshots[k]
    ensures r.Pass? <==> BlockChecked(block, snapshots + [table.symbols])
  {
    ghost var snapshots' := snapshots + [table.symbols];
    var scope := ScopeOf(table, tables + [table]);
    assert scope.blocks == snapshots' by {
      forall k | 0 <= k < |snapshots'| ensures scope.blocks[k] == snapshots'[k] {
        if k < |tables| {
          assert (tables + [table])[k] == tables[k];
        }
      }
    }
    assert scope == BlockScope(snapshots');
    r := AnalyzeStatements(block.behaviourStatements, scope);
  }

  /** The statement loop of a block's analysis: checks the statements in
      order and stops at the first error. */
  method AnalyzeStatements(statements: seq<BehaviourStatementNode>, scope: Scope) returns (r: Outcome)
    requires SaneScope(scope)
    ensures r.Pass? <==> forall st :: st in statements ==> AnalyzeBehaviourStatement(st, scope).Success?
    ensures r.Fail? ==> exists k :: (
      && 0 <= k < |statements|
      && AnalyzeBehaviourStatement(statements[k], scope) == Failure(r.error)
      && forall j :: 0 <= j < k ==> AnalyzeBehaviourStatement(statements[j], scope).Success?)
  {
    var j := 0;
    while j < |statements|
      invariant 0 <= j <= |statements|
      invariant forall k :: 0 <= k < j ==> AnalyzeBehaviourStatement(statements[k], scope).Success?
    {
      var checked := AnalyzeBehaviourStatement(statements[j], scope);
      if checked.Failure? {
        return Fail(checked.error);
      }
      CheckedOneMore(statements, scope, j);
      j := j + 1;
    }
    return Pass;
  }

  /** The statements before j and the one at j type-check, so those before
      j + 1 do. */
  lemma CheckedOneMore(statements: seq<BehaviourStatementNode>, scope: Scope, j: nat)
    requires SaneScope(scope) && j < |statements|
    requires forall k :: 0 <= k < j ==> AnalyzeBehaviourStatement(statements[k], scope).Success?
    requires AnalyzeBehaviourStatement(statements[j], scope).Success?
    ensures forall k :: 0 <= k < j + 1 ==> AnalyzeBehaviourStatement(statements[k], scope).Success?
  {
  }

  /** What the analysis establishes about the first blocks, as values:
      snapshots[k] and ordered[k] are the symbol map and the symbol list
      of block k's table; the two agree, list exactly the names block k
      declares, and every statement of block k type-checks against the
      tables of blocks 0 to k. */
  ghost predicate AllAnalysed(blocks: seq<BlockNode>, snapshots: seq<map<string, Symbol>>, ordered: seq<seq<Symbol>>)
    decreases |blocks|
  {
    && |blocks| == |snapshots| == |ordered|
    && (|blocks| > 0 ==>
          var n := |blocks| - 1;
          && AllAnalysed(blocks[..n], snapshots[..n], ordered[..n])
          && Indexed(snapshots[n], ordered[n])
          && SymbolNames(ordered[n]) == DeclaredNames(blocks[n].declarations)
          && BlockChecked(blocks[n], snapshots))
  }

  /** The per-block reading of AllAnalysed. */
  lemma {:induction false} AllAnalysedMeaning(blocks: seq<BlockNode>, snapshots: seq<map<string, Symbol>>, ordered: seq<seq<Symbol>>)
    requires AllAnalysed(blocks, snapshots, ordered)
    ensures |blocks| == |snapshots| == |ordered|
    ensures forall k :: 0 <= k < |blocks| ==>
      && Indexed(snapshots[k], ordered[k])
      && snapshots[k] == MapOf(ordered[k])
      && SymbolNames(ordered[k]) == DeclaredNames(blocks[k].declarations)
      && BlockChecked(blocks[k], snapshots[..k + 1])
    decreases |blocks|
  {
    if |blocks| > 0 {
      var n := |blocks| - 1;
      AllAnalysedMeaning(blocks[..n], snapshots[..n], ordered[..n]);
      forall k | 0 <= k < |blocks|
        ensures Indexed(snapshots[k], ordered[k])
        ensures snapshots[k] == MapOf(ordered[k])
        ensures SymbolNames(ordered[k]) == DeclaredNames(blocks[k].declarations)
        ensures BlockChecked(blocks[k], snapshots[..k + 1])
      {
        if k < n {
          assert blocks[..n][k] == blocks[k] && snapshots[..n][k] == snapshots[k] && ordered[..n][k] == ordered[k];
          assert snapshots[..n][..k + 1] == snapshots[..k + 1];
        } else {
          assert snapshots[..k + 1] == snapshots;
        }
        IndexedMapOf(snapshots[k], ordered[k]);
      }
    }
  }

  /** Each block's symbol list holds the symbols it declares, typed with
      the block types registered up to and including that block. */
  ghost predicate ListedAsDeclared(blocks: seq<BlockNode>, ordered: seq<seq<Symbol>>)
    decreases |blocks|
  {
    && |blocks| == |ordered|
    && (|blocks| > 0 ==>
          var n := |blocks| - 1;
          && ListedAsDeclared(blocks[..n], ordered[..n])
          && ordered[n] == DeclaredList(blocks[n].declarations, FirstOccurrences(blocks)))
  }

  lemma ListedSnoc(blocks: seq<BlockNode>, i: nat, ordered: seq<seq<Symbol>>, list: seq<Symbol>)
    requires i < |blocks| && ListedAsDeclared(blocks[..i], ordered)
    requires list == DeclaredList(blocks[i].declarations, FirstOccurrences(blocks[..i + 1]))
    ensures ListedAsDeclared(blocks[..i + 1], ordered + [list])
  {
    assert blocks[..i + 1][..i] == blocks[..i];
    assert (ordered + [list])[..i] == ordered;
  }

  /** The analysis stops at the block after the analysed ones: the blocks
      before it were analysed, and it is not accepted. */
  ghost predicate RejectedAfter(blocks: seq<BlockNode>, snapshots: seq<map<string, Symbol>>, ordered: seq<seq<Symbol>>)
  {
    && |snapshots| < |blocks|
    && AllAnalysed(blocks[..|snapshots|], snapshots, ordered)
    && !BlockAccepted(blocks[|snapshots|], FirstOccurrences(blocks[..|snapshots| + 1]), snapshots)
  }

  lemma FirstOccurrencesStep(blocks: seq<BlockNode>, i: nat)
    requires i < |blocks|
    ensures forall name :: name in FirstOccurrences(blocks[..i]) ==> FirstOccurrences(blocks[..i])[name].block < i
    ensures FirstOccurrences(blocks[..i + 1]) ==
      var types := FirstOccurrences(blocks[..i]);
      if blocks[i].identifier in types then types
      else types[blocks[i].identifier := TypeSymbol(blocks[i].identifier, i)]
  {
    FirstOccurrencesMeaning(blocks[..i]);
    assert blocks[..i + 1][..i] == blocks[..i];
  }

  /** One turn of the analysis loop: analyses block i once blocks 0 to i-1
      are analysed, and succeeds exactly when block i is accepted. */
  method AnalyzeNextBlock(blocks: seq<BlockNode>, i: nat, root: SymbolTable, tables: seq<SymbolTable>,
                          ghost snapshots: seq<map<string, Symbol>>, ghost ordered: seq<seq<Symbol>>)
    returns (r: Result<SymbolTable>)
    requires i < |blocks| && |tables| == i
    requires root.parent == null && root.symbols == map[]
    requires root.types == FirstOccurrences(blocks[..i])
    requires |snapshots| == i
    requires forall k :: 0 <= k < i ==> tables[k].parent == root && tables[k].symbols == snapshots[k]
    requires AllAnalysed(blocks[..i], snapshots, ordered)
    modifies root`types
    ensures root.types == FirstOccurrences(blocks[..i + 1])
    ensures r.Success? <==> BlockAccepted(blocks[i], FirstOccurrences(blocks[..i + 1]), snapshots)
    ensures r.Failure? ==> RejectedAfter(blocks, snapshots, ordered)
    ensures r.Success? ==>
      var table := r.value;
      && fresh(table) && table.parent == root && table.signals == map[]
      && table.orderedSymbols == DeclaredList(blocks[i].declarations, FirstOccurrences(blocks[..i + 1]))
      && AllAnalysed(blocks[..i + 1], snapshots + [table.symbols], ordered + [table.orderedSymbols])
  {
    FirstOccurrencesStep(blocks, i);
    assert SaneSnapshots(snapshots) by {
      if i > 0 {
        assert BlockChecked(blocks[..i][i - 1], snapshots);
      }
    }
    r := AnalyzeBlock(blocks[i], root, tables, snapshots);
    if r.Success? {
      var table := r.value;
      assert (blocks[..i + 1])[..i] == blocks[..i] && blocks[..i + 1][i] == blocks[i];
      assert (snapshots + [table.symbols])[..i] == snapshots;
      assert (ordered + [table.orderedSymbols])[..i] == ordered;
    }
  }

  /** Analyses the blocks in order under a fresh root table. On success there
      is one new table per block, under the root and distinct from the
      others; the ghost results are the tables' symbol maps and symbol lists,
      of which AllAnalysed states what the analysis establishes; and each
      block name refers to the first block of that name. On failure the
      blocks before the first rejected one were analysed, and that block is
      not accepted. */
  method Analyze(ast: RootNode)
    returns (r: Result<Analysis>, ghost snapshots: seq<map<string, Symbol>>, ghost ordered: seq<seq<Symbol>>)
    ensures r.Success? ==>
      var a := r.value;
      && fresh(a.root) && a.root.parent == null && a.root.symbols == map[]
      && a.root.types == FirstOccurrences(ast.blocks)
      && |a.tables| == |ast.blocks| == |snapshots| == |ordered| && a.root !in a.tables
      && Distinct(a.tables)
      && (forall k :: 0 <= k < |a.tables| ==>
            && a.tables[k].parent == a.root
            && a.tables[k].symbols == snapshots[k]
            && a.tables[k].orderedSymbols == ordered[k]
            && a.tables[k].signals == map[])
      && AllAnalysed(ast.blocks, snapshots, ordered)
      && ListedAsDeclared(ast.blocks, ordered)
    ensures r.Failure? ==> RejectedAfter(ast.blocks, snapshots, ordered)
  {
    var root := new SymbolTable(null);
    var tables;
    tables, snapshots, ordered := AnalyzeBlocks(ast.blocks, root);
    if tables.Failure? {
      return Failure(tables.error), snapshots, ordered;
    }
    r := Success(Analysis(root, tables.value));
  }

  /** The tables hang under the root and hold the given symbol maps and
      symbol lists, with no signals yet. */
  ghost predicate TablesOf(tables: seq<SymbolTable>, root: SymbolTable,
                           snapshots: seq<map<string, Symbol>>, ordered: seq<seq<Symbol>>)
    reads tables
  {
    && |tables| == |snapshots| == |ordered|
    && forall k :: 0 <= k < |tables| ==>
         && tables[k].parent == root
         && tables[k].symbols == snapshots[k]
         && tables[k].orderedSymbols == ordered[k]
         && tables[k].signals == map[]
  }

  lemma TablesOfSnoc(tables: seq<SymbolTable>, root: SymbolTable, snapshots: seq<map<string, Symbol>>,
                     ordered: seq<seq<Symbol>>, table: SymbolTable)
    requires TablesOf(tables, root, snapshots, ordered)
    requires table.parent == root && table.signals == map[]
    ensures TablesOf(tables + [table], root, snapshots + [table.symbols], ordered + [table.orderedSymbols])
  {
    assert forall k :: 0 <= k < |tables| ==> (tables + [table])[k] == tables[k];
  }

  /** The block loop of the analysis: analyses each block in turn under the
      root table and stops at the first block that is not accepted. */
  method AnalyzeBlocks(blocks: seq<BlockNode>, root: SymbolTable)
    returns (r: Result<seq<SymbolTable>>, ghost snapshots: seq<map<string, Symbol>>, ghost ordered: seq<seq<Symbol>>)
    requires root.parent == null && root.symbols == map[] && root.types == map[]
    modifies root`types
    ensures r.Success? ==>
      && root.types == FirstOccurrences(blocks)
      && |r.value| == |blocks| && root !in r.value
      && Distinct(r.value)
      && TablesOf(r.value, root, snapshots, ordered)
      && AllAnalysed(blocks, snapshots, ordered)
      && ListedAsDeclared(blocks, ordered)
    ensures r.Failure? ==> RejectedAfter(blocks, snapshots, ordered)
  {
    var tables: seq<SymbolTable> := [];
    snapshots, ordered := [], [];
    var i := 0;
    while i < |blocks|
      invariant 0 <= i <= |blocks| && |tables| == |snapshots| == |ordered| == i
      invariant root.types == FirstOccurrences(blocks[..i])
      invariant root !in tables && Distinct(tables)
      invariant TablesOf(tables, root, snapshots, ordered)
      invariant AllAnalysed(blocks[..i], snapshots, ordered)
      invariant ListedAsDeclared(blocks[..i], ordered)
    {
      var result := AnalyzeNextBlock(blocks, i, root, tables, snapshots, ordered);
      if result.Failure? {
        return Failure(result.error), snapshots, ordered;
      }
      var table := result.value;
      DistinctSnoc(tables, table);
      TablesOfSnoc(tables, root, snapshots, ordered, table);
      ListedSnoc(blocks, i, ordered, table.orderedSymbols);
      tables := tables + [table];
      snapshots := snapshots + [table.symbols];
      ordered := ordered + [table.orderedSymbols];
      i := i + 1;
    }
    assert blocks[..i] == blocks;
    r := Success(tables);
  }
}
