/** Lowering of checked blocks to bit-level intermediate blocks
    (src/frontend/IntermediateGenerator.cpp). Every W-bit operator becomes
    W one-bit statements, every assignment W connections, and reading a
    signal emits nothing. The typing the C++ stores on the tree is
    recomputed from the analyser's functions, and the signal ids the C++
    stores on each symbol are the tables' `signals` maps. */
module IntermediateGenerator {
  import opened Wrappers
  import opened AST
  import opened Symbols
  import opened Intermediate
  import opened SemanticAnalyzer

  // ---------------------------------------------------------------------
  // The statements the generator emits

  /** A two-input gate over one bit. */
  function Gate(op: Operation, a: nat, b: nat, out: nat): Statement
  {
    Statement(op, 2, [a, b], [out])
  }

  /** A one-bit NOT or CONNECT. */
  function Unary(op: Operation, a: nat, out: nat): Statement
  {
    Statement(op, 1, [a], [out])
  }

  /** A one-bit constant. */
  function Source(op: Operation, out: nat): Statement
  {
    Statement(op, 1, [], [out])
  }

  /** Bit i of a value, `(value & (1u << i)) != 0` for i below 32. */
  predicate Bit(value: nat, i: nat)
  {
    (value / Pow2(i)) % 2 == 1
  }

  function GateOp(op: BinaryOperator): (r: Operation)
    ensures r == AND || r == OR || r == XOR
  {
    match op
    case And => AND
    case Or => OR
    case Xor => XOR
  }

  /** Bit-sliced gates: bit i combines a+i and b+i into out+i. */
  function GateRow(op: Operation, a: nat, b: nat, out: nat, width: nat): (r: seq<Statement>)
    ensures |r| == width
    ensures forall i :: 0 <= i < width ==> r[i] == Gate(op, a + i, b + i, out + i)
  {
    if width == 0 then [] else GateRow(op, a, b, out, width - 1) + [Gate(op, a + width - 1, b + width - 1, out + width - 1)]
  }

  /** Bit-sliced one-input statements: bit i copies or inverts a+i into out+i. */
  function UnaryRow(op: Operation, a: nat, out: nat, width: nat): (r: seq<Statement>)
    ensures |r| == width
    ensures forall i :: 0 <= i < width ==> r[i] == Unary(op, a + i, out + i)
  {
    if width == 0 then [] else UnaryRow(op, a, out, width - 1) + [Unary(op, a + width - 1, out + width - 1)]
  }

  /** The constant's bits: out+i is driven by CONST1 where bit i is set. */
  function ConstRow(value: nat, out: nat, width: nat): (r: seq<Statement>)
    ensures |r| == width
    ensures forall i :: 0 <= i < width ==>
      r[i] == Source(if Bit(value, i) then CONST1 else CONST0, out + i)
  {
    if width == 0 then []
    else ConstRow(value, out, width - 1) + [Source(if Bit(value, width - 1) then CONST1 else CONST0, out + width - 1)]
  }

  /** The generator's statements are exactly those the statement constructor
      and the slot setters build. */
  lemma GateConstructed(op: Operation, a: nat, b: nat, out: nat)
    requires op == AND || op == OR || op == XOR
    ensures NewStatement(op, 2).Success?
    ensures var s := NewStatement(op, 2).value;
      Gate(op, a, b, out) == s.(inputs := s.inputs[0 := a][1 := b], outputs := s.outputs[0 := out])
    ensures WellFormed(Gate(op, a, b, out))
  {
    var s := NewStatement(op, 2).value;
    assert s.inputs[0 := a][1 := b] == [a, b];
  }

  lemma UnaryConstructed(op: Operation, a: nat, out: nat)
    requires op == NOT || op == CONNECT
    ensures NewStatement(op, 1).Success?
    ensures var s := NewStatement(op, 1).value;
      Unary(op, a, out) == s.(inputs := s.inputs[0 := a], outputs := s.outputs[0 := out])
    ensures WellFormed(Unary(op, a, out))
  {
    var s := NewStatement(op, 1).value;
    assert s.inputs[0 := a] == [a];
  }

  lemma SourceConstructed(op: Operation, out: nat)
    requires op == CONST0 || op == CONST1
    ensures NewStatement(op, 1).Success?
    ensures var s := NewStatement(op, 1).value;
      Source(op, out) == s.(outputs := s.outputs[0 := out])
    ensures WellFormed(Source(op, out))
  {
    var s := NewStatement(op, 1).value;
    assert s.inputs == [];
  }

  // ---------------------------------------------------------------------
  // The lowering, as values

  /** The signal ids stored on the symbols: the block's own symbols, and the
      symbols of every top-level block by position. */
  datatype Pins = Pins(local: map<string, nat>, blocks: seq<map<string, nat>>)

  /** Every symbol the scope can reach has a signal id. The root table, the
      block's parent, holds no symbols. */
  ghost predicate PinsCover(scope: Scope, pins: Pins)
  {
    && scope.parent == map[]
    && scope.local.Keys <= pins.local.Keys
    && |pins.blocks| == |scope.blocks|
    && forall j :: 0 <= j < |scope.blocks| ==> scope.blocks[j].Keys <= pins.blocks[j].Keys
  }

  /** Constant lowering tests bits with a 32-bit shift, which is defined
      only for constants at most 32 bits wide. */
  predicate Narrow(e: ExpressionNode)
  {
    match e
    case Binary(_, left, right) => Narrow(left) && Narrow(right)
    case Not(operand) => Narrow(operand)
    case Variable(_) => true
    case Constant(number) => number.width <= 32
  }

  /** A lowered expression or statement: the signal holding its value, the
      statements emitted, and the next free id afterwards. */
  datatype Lowered = Lowered(signal: nat, statements: seq<Statement>, next: nat)

  /** The first id of the bits an identifier names: the symbol's signal, plus
      the property's signal inside the instantiated block, plus the lowest
      bit the subscript selects. */
  function IdentifierSignal(bi: BehaviourIdentifierNode, scope: Scope, pins: Pins): (r: nat)
    requires SaneScope(scope) && PinsCover(scope, pins)
    requires ResolveIdentifier(bi, scope).Success?
    ensures bi.identifier in pins.local && r >= pins.local[bi.identifier] + SliceOffset(bi)
    ensures bi.propertyIdentifier.None? && bi.subscript.None? ==> r == pins.local[bi.identifier]
  {
    var symbol := scope.local[bi.identifier];
    var base := pins.local[bi.identifier];
    var withProperty :=
      if bi.propertyIdentifier.None? then base
      else base + pins.blocks[symbol.typeData.kind.block][bi.propertyIdentifier.value];
    withProperty + SliceOffset(bi)
  }

  /** The width the analyser records for a checked expression. */
  function WidthOf(e: ExpressionNode, scope: Scope): nat
    requires SaneScope(scope) && AnalyzeExpression(e, scope).Success?
  {
    AnalyzeExpression(e, scope).value.width
  }

  /** The bits an identifier of the scope may name all lie below limit: a
      signal's own bits, and for an instance each signal property's bits
      offset by the instance's first pin. */
  ghost predicate PinsBelow(scope: Scope, pins: Pins, limit: nat)
  {
    forall name :: name in scope.local && name in pins.local ==>
      var symbol := scope.local[name];
      if symbol.typeData.kind.Block? then
        var b := symbol.typeData.kind.block;
        b < |scope.blocks| && b < |pins.blocks| &&
        forall p :: p in scope.blocks[b] && p in pins.blocks[b] && !scope.blocks[b][p].typeData.kind.Block? ==>
          pins.local[name] + pins.blocks[b][p] + scope.blocks[b][p].typeData.width <= limit
      else
        pins.local[name] + symbol.typeData.width <= limit
  }

  /** A checked identifier names bits below the scope's pin limit. */
  lemma IdentifierBelow(bi: BehaviourIdentifierNode, scope: Scope, pins: Pins, limit: nat)
    requires SaneScope(scope) && PinsCover(scope, pins) && PinsBelow(scope, pins, limit)
    requires AnalyzeBehaviourIdentifier(bi, scope).Success?
    ensures IdentifierSignal(bi, scope, pins) + AnalyzeBehaviourIdentifier(bi, scope).value.width <= limit
  {
    var name := bi.identifier;
    assert name in scope.local && name in pins.local;
    if bi.propertyIdentifier.Some? {
      var b := scope.local[name].typeData.kind.block;
      assert bi.propertyIdentifier.value in pins.blocks[b];
    }
  }

  /** Each statement is well formed, writes the id next+i and reads only ids
      below it: the statements write exactly the ids they allocate, and
      every statement reads only pins and the results of earlier ones, so
      the gates they form contain no cycle. */
  ghost predicate Allocates(statements: seq<Statement>, next: nat)
  {
    forall i :: 0 <= i < |statements| ==>
      && WellFormed(statements[i])
      && statements[i].outputs == [next + i]
      && forall k :: 0 <= k < |statements[i].inputs| ==> statements[i].inputs[k] < next + i
  }

  lemma AllocatesAppend(a: seq<Statement>, b: seq<Statement>, next: nat)
    requires Allocates(a, next) && Allocates(b, next + |a|)
    ensures Allocates(a + b, next)
  {
    forall i | |a| <= i < |a + b| ensures (a + b)[i] == b[i - |a|] { }
  }

  lemma AllocatesJoin(a: seq<Statement>, b: seq<Statement>, c: seq<Statement>, next: nat, mid: nat, last: nat)
    requires Allocates(a, next) && mid == next + |a|
    requires Allocates(b, mid) && last == mid + |b|
    requires Allocates(c, last)
    ensures Allocates(a + b + c, next)
  {
    AllocatesAppend(a, b, next);
    AllocatesAppend(a + b, c, next);
  }

  lemma GateRowAllocates(op: Operation, a: nat, b: nat, out: nat, width: nat)
    requires op == AND || op == OR || op == XOR
    requires a + width <= out && b + width <= out
    ensures Allocates(GateRow(op, a, b, out, width), out)
  {
    forall i | 0 <= i < width ensures WellFormed(GateRow(op, a, b, out, width)[i]) {
      GateConstructed(op, a + i, b + i, out + i);
    }
  }

  lemma UnaryRowAllocates(op: Operation, a: nat, out: nat, width: nat)
    requires op == NOT || op == CONNECT
    requires a + width <= out
    ensures Allocates(UnaryRow(op, a, out, width), out)
  {
    forall i | 0 <= i < width ensures WellFormed(UnaryRow(op, a, out, width)[i]) {
      UnaryConstructed(op, a + i, out + i);
    }
  }

  lemma ConstRowAllocates(value: nat, out: nat, width: nat)
    ensures Allocates(ConstRow(value, out, width), out)
  {
    forall i | 0 <= i < width ensures WellFormed(ConstRow(value, out, width)[i]) {
      SourceConstructed(if Bit(value, i) then CONST1 else CONST0, out + i);
    }
  }

  lemma PinsBelowGrows(scope: Scope, pins: Pins, limit: nat, larger: nat)
    requires PinsBelow(scope, pins, limit) && limit <= larger
    ensures PinsBelow(scope, pins, larger)
  {
  }

  /** What generateExpression emits and returns when nextSignal is `next`:
      the operands' statements, then one gate per bit writing ids allocated
      after them. Every statement allocates exactly one id. */
  function LowerExpression(e: ExpressionNode, scope: Scope, pins: Pins, next: nat): (r: Lowered)
    requires SaneScope(scope) && PinsCover(scope, pins)
    requires AnalyzeExpression(e, scope).Success? && Narrow(e)
    ensures r.next == next + |r.statements|
    decreases e
  {
    match e
    case Binary(op, left, right) =>
      var a := LowerExpression(left, scope, pins, next);
      var b := LowerExpression(right, scope, pins, a.next);
      var width := WidthOf(e, scope);
      Lowered(b.next, a.statements + b.statements + GateRow(GateOp(op), a.signal, b.signal, b.next, width), b.next + width)
    case Not(operand) =>
      var a := LowerExpression(operand, scope, pins, next);
      var width := WidthOf(e, scope);
      Lowered(a.next, a.statements + UnaryRow(NOT, a.signal, a.next, width), a.next + width)
    case Variable(bi) =>
      Lowered(IdentifierSignal(bi, scope, pins), [], next)
    case Constant(number) =>
      Lowered(next, ConstRow(number.value, next, number.width), next + number.width)
  }

  /** When every pin lies below next, the lowering writes exactly the ids it
      allocates, in order, and each statement reads only pins and results of
      earlier statements, so the gates form no cycle. A variable emits
      nothing; any other expression's value occupies the last ids allocated. */
  lemma {:induction false} LowerExpressionSound(e: ExpressionNode, scope: Scope, pins: Pins, next: nat)
    requires SaneScope(scope) && PinsCover(scope, pins) && PinsBelow(scope, pins, next)
    requires AnalyzeExpression(e, scope).Success? && Narrow(e)
    ensures var r := LowerExpression(e, scope, pins, next);
      && Allocates(r.statements, next)
      && r.signal + WidthOf(e, scope) <= r.next
      && (e.Variable? <==> r.statements == [])
      && (!e.Variable? ==> r.signal + WidthOf(e, scope) == r.next)
    decreases e
  {
    match e
    case Binary(op, left, right) =>
      var a := LowerExpression(left, scope, pins, next);
      LowerExpressionSound(left, scope, pins, next);
      PinsBelowGrows(scope, pins, next, a.next);
      var b := LowerExpression(right, scope, pins, a.next);
      LowerExpressionSound(right, scope, pins, a.next);
      var width := WidthOf(e, scope);
      GateRowAllocates(GateOp(op), a.signal, b.signal, b.next, width);
      AllocatesJoin(a.statements, b.statements, GateRow(GateOp(op), a.signal, b.signal, b.next, width), next, a.next, b.next);
    case Not(operand) =>
      var a := LowerExpression(operand, scope, pins, next);
      LowerExpressionSound(operand, scope, pins, next);
      var width := WidthOf(e, scope);
      UnaryRowAllocates(NOT, a.signal, a.next, width);
      AllocatesAppend(a.statements, UnaryRow(NOT, a.signal, a.next, width), next);
    case Variable(bi) =>
      IdentifierBelow(bi, scope, pins, next);
    case Constant(number) =>
      ConstRowAllocates(number.value, next, number.width);
  }

  /** A one-bit CONNECT driving target from an id below limit. */
  ghost predicate ConnectTo(s: Statement, target: nat, limit: nat)
  {
    s.op == CONNECT && WellFormed(s) && s.outputs == [target] && s.inputs[0] < limit
  }

  /** What generateBehaviourStatement emits: the source expression's
      statements, then one CONNECT per bit from the source's value to the
      target's bits; the signal is the target's lowest bit. */
  function LowerStatement(statement: BehaviourStatementNode, scope: Scope, pins: Pins, next: nat): (r: Lowered)
    requires SaneScope(scope) && PinsCover(scope, pins)
    requires AnalyzeBehaviourStatement(statement, scope).Success? && Narrow(statement.expression)
    ensures next <= r.next
  {
    var target := IdentifierSignal(statement.behaviourIdentifier, scope, pins);
    var source := LowerExpression(statement.expression, scope, pins, next);
    var width := WidthOf(statement.expression, scope);
    Lowered(target, source.statements + UnaryRow(CONNECT, source.signal, target, width), source.next)
  }

  /** The shape of a lowered assignment whose source allocates ids from next
      on: those statements first, each writing the next id and reading only
      earlier ones, then one CONNECT per bit driving the target's bit i
      from an id the source computed; the target's bits are pins below
      next. */
  ghost predicate Assigns(r: Lowered, next: nat, width: nat)
  {
    && next <= r.next
    && r.signal + width <= next
    && |r.statements| == r.next - next + width
    && Allocates(r.statements[..r.next - next], next)
    && forall i :: r.next - next <= i < |r.statements| ==>
         ConnectTo(r.statements[i], r.signal + (i - (r.next - next)), r.next)
  }

  lemma ConnectsSound(source: Lowered, target: nat, width: nat, next: nat)
    requires source.next == next + |source.statements| && Allocates(source.statements, next)
    requires source.signal + width <= source.next && target + width <= next
    ensures Assigns(Lowered(target, source.statements + UnaryRow(CONNECT, source.signal, target, width), source.next), next, width)
  {
    var connects := UnaryRow(CONNECT, source.signal, target, width);
    forall i | 0 <= i < width ensures ConnectTo(connects[i], target + i, source.next) {
      UnaryConstructed(CONNECT, source.signal + i, target + i);
    }
    assert (source.statements + connects)[..source.next - next] == source.statements;
  }

  /** When every pin lies below next, an assignment's statements are the
      source's, allocating ids from next on, followed by one CONNECT per bit
      driving the target, whose bits are pins below next. */
  lemma LowerStatementSound(statement: BehaviourStatementNode, scope: Scope, pins: Pins, next: nat)
    requires SaneScope(scope) && PinsCover(scope, pins) && PinsBelow(scope, pins, next)
    requires AnalyzeBehaviourStatement(statement, scope).Success? && Narrow(statement.expression)
    ensures Assigns(LowerStatement(statement, scope, pins, next), next, WidthOf(statement.expression, scope))
  {
    var target := IdentifierSignal(statement.behaviourIdentifier, scope, pins);
    var source := LowerExpression(statement.expression, scope, pins, next);
    var width := WidthOf(statement.expression, scope);
    IdentifierBelow(statement.behaviourIdentifier, scope, pins, next);
    LowerExpressionSound(statement.expression, scope, pins, next);
    ConnectsSound(source, target, width, next);
  }

  /** A statement of a lowered block: well formed, every id it names below
      limit, and every gate other than a CONNECT writes an id allocated at
      or after first, never a pin. */
  ghost predicate Emitted(s: Statement, first: nat, limit: nat)
  {
    && WellFormed(s)
    && (forall k :: 0 <= k < |s.inputs| ==> s.inputs[k] < limit)
    && s.outputs[0] < limit
    && (s.op != CONNECT ==> first <= s.outputs[0])
  }

  /** Every statement is Emitted(first, limit). */
  ghost predicate AllEmitted(statements: seq<Statement>, first: nat, limit: nat)
  {
    forall i :: 0 <= i < |statements| ==> Emitted(statements[i], first, limit)
  }

  /** Appending the statements of a later step, whose gates write ids from
      mid on, to earlier ones, with the limit raised to cover both. */
  lemma EmittedAppend(a: seq<Statement>, b: seq<Statement>, first: nat, mid: nat, limit: nat)
    requires first <= mid <= limit
    requires AllEmitted(a, first, mid) && AllEmitted(b, mid, limit)
    ensures AllEmitted(a + b, first, limit)
  {
    forall i | 0 <= i < |a + b| ensures Emitted((a + b)[i], first, limit) {
      var s := (a + b)[i];
      if i < |a| {
        assert s == a[i] && Emitted(s, first, mid);
      } else {
        assert s == b[i - |a|] && Emitted(s, mid, limit);
      }
      assert forall k :: 0 <= k < |s.inputs| ==> s.inputs[k] < limit;
    }
  }

  lemma StatementEmitted(statement: BehaviourStatementNode, scope: Scope, pins: Pins, next: nat)
    requires SaneScope(scope) && PinsCover(scope, pins) && PinsBelow(scope, pins, next)
    requires AnalyzeBehaviourStatement(statement, scope).Success? && Narrow(statement.expression)
    ensures var r := LowerStatement(statement, scope, pins, next);
      AllEmitted(r.statements, next, r.next)
  {
    LowerStatementSound(statement, scope, pins, next);
    var r := LowerStatement(statement, scope, pins, next);
    AssignsEmitted(r, next, WidthOf(statement.expression, scope));
  }

  lemma AssignsEmitted(r: Lowered, next: nat, width: nat)
    requires Assigns(r, next, width)
    ensures AllEmitted(r.statements, next, r.next)
  {
    var k := r.next - next;
    forall i | 0 <= i < |r.statements| ensures Emitted(r.statements[i], next, r.next) {
      if i < k {
        assert r.statements[i] == r.statements[..k][i];
      } else {
        assert ConnectTo(r.statements[i], r.signal + (i - k), r.next);
      }
    }
  }

  /** Every statement analysed successfully and has only narrow constants. */
  ghost predicate StatementsChecked(statements: seq<BehaviourStatementNode>, scope: Scope)
    requires SaneScope(scope)
  {
    forall i :: 0 <= i < |statements| ==>
      AnalyzeBehaviourStatement(statements[i], scope).Success? && Narrow(statements[i].expression)
  }

  /** What generateBehaviourStatements emits, in statement order, and the
      next free id afterwards. */
  function LowerStatements(statements: seq<BehaviourStatementNode>, scope: Scope, pins: Pins, next: nat)
    : (r: (seq<Statement>, nat))
    requires SaneScope(scope) && PinsCover(scope, pins)
    requires StatementsChecked(statements, scope)
    ensures next <= r.1
    decreases |statements|
  {
    if statements == [] then ([], next)
    else
      var n := |statements| - 1;
      var before := LowerStatements(statements[..n], scope, pins, next);
      var last := LowerStatement(statements[n], scope, pins, before.1);
      (before.0 + last.statements, last.next)
  }

  /** When every pin lies below next, every statement of a block's lowering
      is well formed and names only ids below the final next, and no gate
      but a CONNECT drives a pin. */
  lemma {:induction false} LowerStatementsSound(statements: seq<BehaviourStatementNode>, scope: Scope, pins: Pins, next: nat)
    requires SaneScope(scope) && PinsCover(scope, pins) && PinsBelow(scope, pins, next)
    requires StatementsChecked(statements, scope)
    ensures var r := LowerStatements(statements, scope, pins, next);
      AllEmitted(r.0, next, r.1)
    decreases |statements|
  {
    if statements != [] {
      var n := |statements| - 1;
      var before := LowerStatements(statements[..n], scope, pins, next);
      LowerStatementsSound(statements[..n], scope, pins, next);
      PinsBelowGrows(scope, pins, next, before.1);
      var last := LowerStatement(statements[n], scope, pins, before.1);
      StatementEmitted(statements[n], scope, pins, before.1);
      EmittedAppend(before.0, last.statements, next, before.1, last.next);
    }
  }

  /** Lowering one more statement appends its lowering. */
  lemma LowerStatementsStep(statements: seq<BehaviourStatementNode>, scope: Scope, pins: Pins, next: nat, i: nat)
    requires SaneScope(scope) && PinsCover(scope, pins)
    requires StatementsChecked(statements, scope) && i < |statements|
    ensures StatementsChecked(statements[..i], scope) && StatementsChecked(statements[..i + 1], scope)
    ensures AnalyzeBehaviourStatement(statements[i], scope).Success? && Narrow(statements[i].expression)
    ensures var before := LowerStatements(statements[..i], scope, pins, next);
      var last := LowerStatement(statements[i], scope, pins, before.1);
      LowerStatements(statements[..i + 1], scope, pins, next) == (before.0 + last.statements, last.next)
  {
    assert statements[..i + 1][..i] == statements[..i];
  }

  // ---------------------------------------------------------------------
  // Emitting into an Intermediate::Block

  /** The loop of generateBinaryExpression for one operator. */
  method EmitGates(block: Block, op: Operation, a: nat, b: nat, out: nat, width: nat)
    requires op == AND || op == OR || op == XOR
    modifies block`statements
    ensures block.statements == old(block.statements) + GateRow(op, a, b, out, width)
  {
    for i := 0 to width
      invariant block.statements == old(block.statements) + GateRow(op, a, b, out, i)
    {
      GateConstructed(op, a + i, b + i, out + i);
      var statement := NewStatement(op, 2).value;
      statement := SetInput(statement, 0, a + i).value;
      statement := SetInput(statement, 1, b + i).value;
      statement := SetOutput(statement, 0, out + i).value;
      block.AddStatement(statement);
    }
  }

  /** The loops of generateUnaryExpression and generateBehaviourStatement:
      one NOT or CONNECT per bit. */
  method EmitUnary(block: Block, op: Operation, a: nat, out: nat, width: nat)
    requires op == NOT || op == CONNECT
    modifies block`statements
    ensures block.statements == old(block.statements) + UnaryRow(op, a, out, width)
  {
    for i := 0 to width
      invariant block.statements == old(block.statements) + UnaryRow(op, a, out, i)
    {
      UnaryConstructed(op, a + i, out + i);
      var statement := NewStatement(op, 1).value;
      statement := SetInput(statement, 0, a + i).value;
      statement := SetOutput(statement, 0, out + i).value;
      block.AddStatement(statement);
    }
  }

  /** generateConstant: allocates width ids and drives each from CONST0 or
      CONST1 according to the value's bit. */
  method GenerateConstant(value: nat, width: nat, block: Block) returns (signal: nat)
    modifies block`statements, block`nextSignal
    ensures signal == old(block.nextSignal) && block.nextSignal == signal + width
    ensures block.statements == old(block.statements) + ConstRow(value, signal, width)
  {
    signal := block.AllocateSignals(width);
    for i := 0 to width
      invariant block.nextSignal == signal + width
      invariant block.statements == old(block.statements) + ConstRow(value, signal, i)
    {
      var bitValue := (value / Pow2(i)) % 2 == 1;
      var op := if bitValue then CONST1 else CONST0;
      SourceConstructed(op, signal + i);
      var statement := NewStatement(op, 1).value;
      statement := SetOutput(statement, 0, signal + i).value;
      block.AddStatement(statement);
    }
  }

  /** generateBinaryExpression: the left operand, the right operand, then
      width fresh ids and one gate per bit. */
  method GenerateBinaryExpression(e: ExpressionNode, scope: Scope, pins: Pins, block: Block) returns (signal: nat)
    requires e.Binary?
    requires SaneScope(scope) && PinsCover(scope, pins)
    requires AnalyzeExpression(e, scope).Success? && Narrow(e)
    modifies block`statements, block`nextSignal
    ensures var r := LowerExpression(e, scope, pins, old(block.nextSignal));
      && signal == r.signal
      && block.statements == old(block.statements) + r.statements
      && block.nextSignal == r.next
    decreases e, 0
  {
    ghost var emitted := block.statements;
    ghost var a := LowerExpression(e.leftOperand, scope, pins, block.nextSignal);
    var signalA := GenerateExpression(e.leftOperand, scope, pins, block);
    ghost var b := LowerExpression(e.rightOperand, scope, pins, a.next);
    var signalB := GenerateExpression(e.rightOperand, scope, pins, block);
    var width := WidthOf(e, scope);
    signal := block.AllocateSignals(width);
    EmitGates(block, GateOp(e.op), signalA, signalB, signal, width);
    AppendAssociates(emitted + a.statements, b.statements, GateRow(GateOp(e.op), signalA, signalB, signal, width));
    AppendAssociates(emitted, a.statements, b.statements + GateRow(GateOp(e.op), signalA, signalB, signal, width));
    AppendAssociates(a.statements, b.statements, GateRow(GateOp(e.op), signalA, signalB, signal, width));
  }

  /** generateUnaryExpression: the operand, then width fresh ids and one NOT
      per bit. */
  method GenerateUnaryExpression(e: ExpressionNode, scope: Scope, pins: Pins, block: Block) returns (signal: nat)
    requires e.Not?
    requires SaneScope(scope) && PinsCover(scope, pins)
    requires AnalyzeExpression(e, scope).Success? && Narrow(e)
    modifies block`statements, block`nextSignal
    ensures var r := LowerExpression(e, scope, pins, old(block.nextSignal));
      && signal == r.signal
      && block.statements == old(block.statements) + r.statements
      && block.nextSignal == r.next
    decreases e, 0
  {
    var signalA := GenerateExpression(e.operand, scope, pins, block);
    var width := WidthOf(e, scope);
    signal := block.AllocateSignals(width);
    EmitUnary(block, NOT, signalA, signal, width);
  }

  /** generateExpression: emits exactly the lowering of the expression and
      returns the id of its value's lowest bit. */
  method GenerateExpression(e: ExpressionNode, scope: Scope, pins: Pins, block: Block) returns (signal: nat)
    requires SaneScope(scope) && PinsCover(scope, pins)
    requires AnalyzeExpression(e, scope).Success? && Narrow(e)
    modifies block`statements, block`nextSignal
    ensures var r := LowerExpression(e, scope, pins, old(block.nextSignal));
      && signal == r.signal
      && block.statements == old(block.statements) + r.statements
      && block.nextSignal == r.next
    decreases e, 1
  {
    match e
    case Binary(_, _, _) =>
      signal := GenerateBinaryExpression(e, scope, pins, block);
    case Not(_) =>
      signal := GenerateUnaryExpression(e, scope, pins, block);
    case Variable(bi) =>
      signal := IdentifierSignal(bi, scope, pins);
    case Constant(number) =>
      signal := GenerateConstant(number.value, number.width, block);
  }

  /** generateBehaviourStatement: emits exactly the statement's lowering. */
  method GenerateBehaviourStatement(statement: BehaviourStatementNode, scope: Scope, pins: Pins, block: Block)
    requires SaneScope(scope) && PinsCover(scope, pins)
    requires AnalyzeBehaviourStatement(statement, scope).Success? && Narrow(statement.expression)
    modifies block`statements, block`nextSignal
    ensures var r := LowerStatement(statement, scope, pins, old(block.nextSignal));
      block.statements == old(block.statements) + r.statements && block.nextSignal == r.next
  {
    var width := WidthOf(statement.expression, scope);
    var targetSignal := IdentifierSignal(statement.behaviourIdentifier, scope, pins);
    var sourceSignal := GenerateExpression(statement.expression, scope, pins, block);
    EmitUnary(block, CONNECT, sourceSignal, targetSignal, width);
  }

  /** generateBehaviourStatements: the statements in order. */
  method GenerateBehaviourStatements(statements: seq<BehaviourStatementNode>, scope: Scope, pins: Pins, block: Block)
    requires SaneScope(scope) && PinsCover(scope, pins)
    requires StatementsChecked(statements, scope)
    modifies block`statements, block`nextSignal
    ensures var r := LowerStatements(statements, scope, pins, old(block.nextSignal));
      block.statements == old(block.statements) + r.0 && block.nextSignal == r.1
  {
    ghost var start, emitted := block.nextSignal, block.statements;
    for i := 0 to |statements|
      invariant StatementsChecked(statements[..i], scope)
      invariant var r := LowerStatements(statements[..i], scope, pins, start);
        block.statements == emitted + r.0 && block.nextSignal == r.1
    {
      LowerStatementsStep(statements, scope, pins, start, i);
      ghost var before := LowerStatements(statements[..i], scope, pins, start);
      ghost var last := LowerStatement(statements[i], scope, pins, before.1);
      ghost var mid := block.statements;
      assert mid == emitted + before.0;
      GenerateBehaviourStatement(statements[i], scope, pins, block);
      assert block.statements == mid + last.statements;
      AppendAssociates(emitted, before.0, last.statements);
    }
    assert statements[..|statements|] == statements;
  }

  // ---------------------------------------------------------------------
  // Pin assignment: three passes over the symbols in declaration order

  /** The three loops of generateBlock: inputs, then outputs, then instances. */
  datatype PassKind = InputPass | OutputPass | InstancePass

  predicate Selected(kind: PassKind, s: Symbol)
  {
    match kind
    case InputPass => s.typeData.kind.In?
    case OutputPass => s.typeData.kind.Out?
    case InstancePass => s.typeData.kind.Block?
  }

  /** Every instance refers to one of the first n blocks. */
  predicate InstancesBelow(ordered: seq<Symbol>, n: nat)
  {
    forall i :: 0 <= i < |ordered| && ordered[i].typeData.kind.Block? ==> ordered[i].typeData.kind.block < n
  }

  /** The ids a symbol's pass reserves for it: its width for a signal, and
      the pins of the instantiated block for an instance. */
  function PinWidth(s: Symbol, defs: seq<BlockDef>): nat
    requires s.typeData.kind.Block? ==> s.typeData.kind.block < |defs|
  {
    if s.typeData.kind.Block? then PinCount(defs[s.typeData.kind.block]) else s.typeData.width
  }

  /** The ids one pass reserves for the symbols it selects. */
  function PassSize(ordered: seq<Symbol>, kind: PassKind, defs: seq<BlockDef>): nat
    requires InstancesBelow(ordered, |defs|)
    decreases |ordered|
  {
    if ordered == [] then 0
    else
      var n := |ordered| - 1;
      PassSize(ordered[..n], kind, defs) + (if Selected(kind, ordered[n]) then PinWidth(ordered[n], defs) else 0)
  }

  /** The signal ids one pass records, starting from the map m: each selected
      symbol gets the first id after those of the symbols selected before it. */
  function PassPins(ordered: seq<Symbol>, kind: PassKind, base: nat, defs: seq<BlockDef>, m: map<string, nat>)
    : map<string, nat>
    requires InstancesBelow(ordered, |defs|)
    decreases |ordered|
  {
    if ordered == [] then m
    else
      var n := |ordered| - 1;
      var before := PassPins(ordered[..n], kind, base, defs, m);
      if Selected(kind, ordered[n]) then before[ordered[n].name := base + PassSize(ordered[..n], kind, defs)]
      else before
  }

  /** A symbol's range ends within its pass, and a later symbol of the same
      pass starts after it. */
  lemma {:induction false} PassSizeGrows(ordered: seq<Symbol>, kind: PassKind, defs: seq<BlockDef>, i: nat, j: nat)
    requires InstancesBelow(ordered, |defs|) && i < j <= |ordered|
    ensures PassSize(ordered[..i], kind, defs) + (if Selected(kind, ordered[i]) then PinWidth(ordered[i], defs) else 0)
            <= PassSize(ordered[..j], kind, defs)
    decreases j
  {
    var step := PassSize(ordered[..i], kind, defs) + (if Selected(kind, ordered[i]) then PinWidth(ordered[i], defs) else 0);
    assert ordered[..i + 1][..i] == ordered[..i];
    assert step == PassSize(ordered[..i + 1], kind, defs);
    if j > i + 1 {
      PassSizeGrows(ordered, kind, defs, i, j - 1);
      assert ordered[..j][..j - 1] == ordered[..j - 1];
    }
  }

  /** After a pass, every symbol it selects maps to the first id of its
      range, and every other name keeps its entry. */
  lemma {:induction false} PassPinsMeaning(symbols: map<string, Symbol>, ordered: seq<Symbol>, kind: PassKind,
                                           base: nat, defs: seq<BlockDef>, m: map<string, nat>)
    requires Indexed(symbols, ordered) && InstancesBelow(ordered, |defs|)
    ensures var r := PassPins(ordered, kind, base, defs, m);
      && (forall i :: 0 <= i < |ordered| && Selected(kind, ordered[i]) ==>
            ordered[i].name in r && r[ordered[i].name] == base + PassSize(ordered[..i], kind, defs))
      && (forall name :: name in m && !(name in symbols && Selected(kind, symbols[name])) ==>
            name in r && r[name] == m[name])
    decreases |ordered|
  {
    if ordered != [] {
      var n := |ordered| - 1;
      var last := ordered[n];
      var rest := symbols - {last.name};
      PassPinsMeaning(rest, ordered[..n], kind, base, defs, m);
      IndexedMeaning(rest, ordered[..n]);
      var before := PassPins(ordered[..n], kind, base, defs, m);
      var r := PassPins(ordered, kind, base, defs, m);
      forall i | 0 <= i < |ordered| && Selected(kind, ordered[i])
        ensures ordered[i].name in r && r[ordered[i].name] == base + PassSize(ordered[..i], kind, defs)
      {
        if i < n {
          assert ordered[..n][i] == ordered[i] && ordered[..n][..i] == ordered[..i];
          assert ordered[i].name in rest;
        }
      }
    }
  }

  /** The pass that reserves a symbol's ids. */
  function PassOf(s: Symbol): (kind: PassKind)
    ensures Selected(kind, s)
  {
    match s.typeData.kind
    case In => InputPass
    case Out => OutputPass
    case Block(_) => InstancePass
  }

  /** The signal ids of a block's symbols and the ends of its input, output
      and instance ranges. */
  datatype Layout = Layout(pins: map<string, nat>, inputEnd: nat, outputEnd: nat, pinEnd: nat)

  /** The three passes of generateBlock, run from an empty map at id 0. */
  function BlockLayout(ordered: seq<Symbol>, defs: seq<BlockDef>): (r: Layout)
    requires InstancesBelow(ordered, |defs|)
    ensures r.inputEnd <= r.outputEnd <= r.pinEnd
  {
    var inputs := PassPins(ordered, InputPass, 0, defs, map[]);
    var inputEnd := PassSize(ordered, InputPass, defs);
    var outputs := PassPins(ordered, OutputPass, inputEnd, defs, inputs);
    var outputEnd := inputEnd + PassSize(ordered, OutputPass, defs);
    var all := PassPins(ordered, InstancePass, outputEnd, defs, outputs);
    Layout(all, inputEnd, outputEnd, outputEnd + PassSize(ordered, InstancePass, defs))
  }

  /** The range of symbol i starts at the first id after the ranges of the
      symbols before it in the same pass. */
  function PinStart(ordered: seq<Symbol>, defs: seq<BlockDef>, i: nat): nat
    requires InstancesBelow(ordered, |defs|) && i < |ordered|
  {
    var l := BlockLayout(ordered, defs);
    var base := match PassOf(ordered[i])
      case InputPass => 0
      case OutputPass => l.inputEnd
      case InstancePass => l.outputEnd;
    base + PassSize(ordered[..i], PassOf(ordered[i]), defs)
  }

  /** The end of the range a pass fills. */
  function PassEnd(l: Layout, kind: PassKind): nat
  {
    match kind
    case InputPass => l.inputEnd
    case OutputPass => l.outputEnd
    case InstancePass => l.pinEnd
  }

  /** Where the passes put symbol i, and that its range ends within its pass. */
  lemma LayoutAt(symbols: map<string, Symbol>, ordered: seq<Symbol>, defs: seq<BlockDef>, i: nat)
    requires Indexed(symbols, ordered) && InstancesBelow(ordered, |defs|) && i < |ordered|
    requires ordered[i].name in symbols && symbols[ordered[i].name] == ordered[i]
    ensures var l := BlockLayout(ordered, defs);
      && ordered[i].name in l.pins && l.pins[ordered[i].name] == PinStart(ordered, defs, i)
      && PinStart(ordered, defs, i) + PinWidth(ordered[i], defs) <= PassEnd(l, PassOf(ordered[i]))
  {
    var l := BlockLayout(ordered, defs);
    var s := ordered[i];
    var inputs := PassPins(ordered, InputPass, 0, defs, map[]);
    var outputs := PassPins(ordered, OutputPass, l.inputEnd, defs, inputs);
    assert l.pins == PassPins(ordered, InstancePass, l.outputEnd, defs, outputs);
    var start := PinStart(ordered, defs, i);
    PassPinsMeaning(symbols, ordered, InputPass, 0, defs, map[]);
    PassPinsMeaning(symbols, ordered, OutputPass, l.inputEnd, defs, inputs);
    PassPinsMeaning(symbols, ordered, InstancePass, l.outputEnd, defs, outputs);
    if s.typeData.kind.In? {
      assert s.name in inputs && inputs[s.name] == start;
      assert s.name in outputs && outputs[s.name] == start;
    } else if s.typeData.kind.Out? {
      assert s.name in outputs && outputs[s.name] == start;
    }
    PassSizeGrows(ordered, PassOf(s), defs, i, |ordered|);
    assert ordered[..|ordered|] == ordered;
  }

  /** Every symbol gets its own range of ids: inputs in [0, inputEnd),
      outputs in [inputEnd, outputEnd), instances in [outputEnd, pinEnd),
      each in declaration order. */
  lemma LayoutMeaning(symbols: map<string, Symbol>, ordered: seq<Symbol>, defs: seq<BlockDef>)
    requires Indexed(symbols, ordered) && InstancesBelow(ordered, |defs|)
    ensures var l := BlockLayout(ordered, defs);
      && symbols.Keys <= l.pins.Keys
      && forall i :: 0 <= i < |ordered| ==>
           && ordered[i].name in l.pins && l.pins[ordered[i].name] == PinStart(ordered, defs, i)
           && (ordered[i].typeData.kind.In? ==> PinStart(ordered, defs, i) + ordered[i].typeData.width <= l.inputEnd)
           && (ordered[i].typeData.kind.Out? ==>
                 l.inputEnd <= PinStart(ordered, defs, i) && PinStart(ordered, defs, i) + ordered[i].typeData.width <= l.outputEnd)
           && (ordered[i].typeData.kind.Block? ==>
                 l.outputEnd <= PinStart(ordered, defs, i) && PinStart(ordered, defs, i) + PinWidth(ordered[i], defs) <= l.pinEnd)
  {
    IndexedMeaning(symbols, ordered);
    forall i | 0 <= i < |ordered|
      ensures var l := BlockLayout(ordered, defs);
        && ordered[i].name in l.pins && l.pins[ordered[i].name] == PinStart(ordered, defs, i)
        && PinStart(ordered, defs, i) + PinWidth(ordered[i], defs) <= PassEnd(l, PassOf(ordered[i]))
    {
      LayoutAt(symbols, ordered, defs, i);
    }
  }

  /** Two symbols of the same pass get disjoint ranges, the earlier first. */
  lemma LayoutDisjoint(ordered: seq<Symbol>, defs: seq<BlockDef>, i: nat, j: nat)
    requires InstancesBelow(ordered, |defs|) && i < j < |ordered|
    requires PassOf(ordered[i]) == PassOf(ordered[j])
    ensures PinStart(ordered, defs, i) + PinWidth(ordered[i], defs) <= PinStart(ordered, defs, j)
  {
    PassSizeGrows(ordered, PassOf(ordered[i]), defs, i, j);
  }

  /** The instantiated blocks in declaration order: the nested references
      the instance pass adds. */
  function Instances(ordered: seq<Symbol>, defs: seq<BlockDef>): (r: seq<BlockDef>)
    requires InstancesBelow(ordered, |defs|)
    ensures PinSum(r) == PassSize(ordered, InstancePass, defs)
    decreases |ordered|
  {
    if ordered == [] then []
    else
      var n := |ordered| - 1;
      var before := Instances(ordered[..n], defs);
      if ordered[n].typeData.kind.Block? then
        var r := before + [defs[ordered[n].typeData.kind.block]];
        assert r[..|r| - 1] == before;
        r
      else before
  }

  /** The first loop of generateBlock: each input gets the next input ids. */
  method AssignInputs(symbols: seq<Symbol>, defs: seq<BlockDef>, table: SymbolTable, block: Block)
    requires InstancesBelow(symbols, |defs|) && block.InputPhase() && block.inputSignals == 0
    modifies table`signals, block`inputSignals, block`nextSignal
    ensures block.InputPhase() && block.inputSignals == PassSize(symbols, InputPass, defs)
    ensures table.signals == PassPins(symbols, InputPass, 0, defs, old(table.signals))
  {
    for i := 0 to |symbols|
      invariant block.InputPhase() && block.inputSignals == PassSize(symbols[..i], InputPass, defs)
      invariant table.signals == PassPins(symbols[..i], InputPass, 0, defs, old(table.signals))
    {
      assert symbols[..i + 1][..i] == symbols[..i];
      var symbol := symbols[i];
      if symbol.typeData.kind.In? {
        var r := block.AllocateInputSignals(symbol.typeData.width);
        table.SetSignal(symbol.name, r.value);
      }
    }
    assert symbols[..|symbols|] == symbols;
  }

  /** The second loop: each output gets the next output ids. */
  method AssignOutputs(symbols: seq<Symbol>, defs: seq<BlockDef>, table: SymbolTable, block: Block)
    requires InstancesBelow(symbols, |defs|) && block.PinPhase() && block.outputSignals == 0
    modifies table`signals, block`outputSignals, block`nextSignal
    ensures block.PinPhase() && block.outputSignals == PassSize(symbols, OutputPass, defs)
    ensures table.signals == PassPins(symbols, OutputPass, block.inputSignals, defs, old(table.signals))
  {
    for i := 0 to |symbols|
      invariant block.PinPhase() && block.outputSignals == PassSize(symbols[..i], OutputPass, defs)
      invariant table.signals == PassPins(symbols[..i], OutputPass, block.inputSignals, defs, old(table.signals))
    {
      assert symbols[..i + 1][..i] == symbols[..i];
      var symbol := symbols[i];
      if symbol.typeData.kind.Out? {
        var r := block.AllocateOutputSignals(symbol.typeData.width);
        table.SetSignal(symbol.name, r.value);
      }
    }
    assert symbols[..|symbols|] == symbols;
  }

  /** The third loop: each instance adds its block and gets its pins. */
  method AssignInstances(symbols: seq<Symbol>, defs: seq<BlockDef>, table: SymbolTable, block: Block)
    requires InstancesBelow(symbols, |defs|) && block.PinPhase()
    modifies table`signals, block`blocks, block`nextSignal
    ensures block.statements == []
    ensures block.blocks == Instances(symbols, defs)
    ensures block.nextSignal == old(block.nextSignal) + PassSize(symbols, InstancePass, defs)
    ensures table.signals == PassPins(symbols, InstancePass, old(block.nextSignal), defs, old(table.signals))
  {
    for i := 0 to |symbols|
      invariant block.statements == [] && block.blocks == Instances(symbols[..i], defs)
      invariant block.nextSignal == old(block.nextSignal) + PassSize(symbols[..i], InstancePass, defs)
      invariant table.signals == PassPins(symbols[..i], InstancePass, old(block.nextSignal), defs, old(table.signals))
    {
      assert symbols[..i + 1][..i] == symbols[..i];
      var symbol := symbols[i];
      if symbol.typeData.kind.Block? {
        var r := block.AddBlock(defs[symbol.typeData.kind.block]);
        table.SetSignal(symbol.name, r.value);
      }
    }
    assert symbols[..|symbols|] == symbols;
  }

  // ---------------------------------------------------------------------
  // Blocks

  /** Every constant of the block's statements is at most 32 bits wide. */
  ghost predicate NarrowStatements(node: BlockNode)
  {
    forall i :: 0 <= i < |node.behaviourStatements| ==> Narrow(node.behaviourStatements[i].expression)
  }

  /** A generated block and the signal ids of its table's symbols agree: every
      symbol has an id, and every input and output lies among the block's
      pins, the ids an instance of it exposes. */
  ghost predicate Fits(def: BlockDef, pins: map<string, nat>, symbols: map<string, Symbol>)
  {
    && symbols.Keys <= pins.Keys
    && forall p :: p in symbols && !symbols[p].typeData.kind.Block? ==>
         p in pins && pins[p] + symbols[p].typeData.width <= PinCount(def)
  }

  /** What generateBlock relies on for the block after defs: snapshots are
      the symbol maps of the tables up to this block's, ordered lists this
      block's symbols, its statements type-check and have narrow constants,
      it instantiates only earlier blocks, and every earlier block fits the
      ids recorded in its table. */
  ghost predicate Generable(node: BlockNode, snapshots: seq<map<string, Symbol>>, ordered: seq<Symbol>,
                            defs: seq<BlockDef>, pinMaps: seq<map<string, nat>>)
  {
    && |snapshots| == |defs| + 1 && |pinMaps| == |defs|
    && Indexed(snapshots[|defs|], ordered)
    && BlockChecked(node, snapshots)
    && NarrowStatements(node)
    && InstancesBelow(ordered, |defs|)
    && forall k :: 0 <= k < |defs| ==> Fits(defs[k], pinMaps[k], snapshots[k])
  }

  /** The ids the statements of a generated block see: its own symbols'
      and those recorded for every earlier block. */
  function BlockPinsOf(l: Layout, pinMaps: seq<map<string, nat>>): Pins
  {
    Pins(l.pins, pinMaps + [l.pins])
  }

  /** Within a generable block every identifier names ids below the end of
      the instance pins. */
  lemma BlockPinsBelow(node: BlockNode, snapshots: seq<map<string, Symbol>>, ordered: seq<Symbol>,
                       defs: seq<BlockDef>, pinMaps: seq<map<string, nat>>)
    requires Generable(node, snapshots, ordered, defs, pinMaps)
    ensures var l := BlockLayout(ordered, defs);
      PinsBelow(BlockScope(snapshots), BlockPinsOf(l, pinMaps), l.pinEnd)
  {
    var n := |defs|;
    var l := BlockLayout(ordered, defs);
    var scope := BlockScope(snapshots);
    var pins := BlockPinsOf(l, pinMaps);
    LayoutMeaning(snapshots[n], ordered, defs);
    IndexedMeaning(snapshots[n], ordered);
    forall name | name in scope.local && name in pins.local
      ensures var symbol := scope.local[name];
        if symbol.typeData.kind.Block? then
          var b := symbol.typeData.kind.block;
          b < |scope.blocks| && b < |pins.blocks| &&
          forall p :: p in scope.blocks[b] && p in pins.blocks[b] && !scope.blocks[b][p].typeData.kind.Block? ==>
            pins.local[name] + pins.blocks[b][p] + scope.blocks[b][p].typeData.width <= l.pinEnd
        else
          pins.local[name] + symbol.typeData.width <= l.pinEnd
    {
      var i :| 0 <= i < |ordered| && ordered[i].name == name;
      var symbol := ordered[i];
      assert scope.local[name] == symbol;
      if symbol.typeData.kind.Block? {
        var b := symbol.typeData.kind.block;
        assert b < n;
        assert pins.blocks[b] == pinMaps[b];
        assert Fits(defs[b], pinMaps[b], snapshots[b]);
        assert pins.local[name] + PinCount(defs[b]) <= l.pinEnd;
      }
    }
  }

  /** A generable block can be lowered: its scope is sane, every symbol it
      reaches has an id, and its statements are checked. */
  lemma BlockPins(node: BlockNode, snapshots: seq<map<string, Symbol>>, ordered: seq<Symbol>,
                  defs: seq<BlockDef>, pinMaps: seq<map<string, nat>>)
    requires Generable(node, snapshots, ordered, defs, pinMaps)
    ensures var l := BlockLayout(ordered, defs);
      var scope := BlockScope(snapshots);
      && SaneScope(scope)
      && PinsCover(scope, BlockPinsOf(l, pinMaps))
      && StatementsChecked(node.behaviourStatements, scope)
  {
    var n := |defs|;
    var l := BlockLayout(ordered, defs);
    var scope := BlockScope(snapshots);
    var pins := BlockPinsOf(l, pinMaps);
    LayoutMeaning(snapshots[n], ordered, defs);
    forall j | 0 <= j < |scope.blocks| ensures scope.blocks[j].Keys <= pins.blocks[j].Keys {
      if j < n {
        assert Fits(defs[j], pinMaps[j], snapshots[j]);
      }
    }
    forall i | 0 <= i < |node.behaviourStatements|
      ensures AnalyzeBehaviourStatement(node.behaviourStatements[i], scope).Success?
    {
      assert node.behaviourStatements[i] in node.behaviourStatements;
    }
  }

  /** The block generateBlock builds: the three pin passes, the instances in
      declaration order, then the lowered statements from the first id
      after the instance pins. */
  function BlockValue(node: BlockNode, snapshots: seq<map<string, Symbol>>, ordered: seq<Symbol>,
                      defs: seq<BlockDef>, pinMaps: seq<map<string, nat>>): BlockDef
    requires Generable(node, snapshots, ordered, defs, pinMaps)
  {
    var l := BlockLayout(ordered, defs);
    BlockPins(node, snapshots, ordered, defs, pinMaps);
    var lowered := LowerStatements(node.behaviourStatements, BlockScope(snapshots), BlockPinsOf(l, pinMaps), l.pinEnd);
    BlockDef(node.identifier, l.inputEnd, l.outputEnd - l.inputEnd, Instances(ordered, defs), lowered.0, lowered.1)
  }

  /** A generated block exposes its inputs then its outputs as pins, places
      its instances' pins right after them, fits the ids recorded for its
      symbols, and its statements name only its own ids, with no gate but
      a CONNECT driving a pin. */
  lemma BlockSound(node: BlockNode, snapshots: seq<map<string, Symbol>>, ordered: seq<Symbol>,
                   defs: seq<BlockDef>, pinMaps: seq<map<string, nat>>)
    requires Generable(node, snapshots, ordered, defs, pinMaps)
    ensures var r := BlockValue(node, snapshots, ordered, defs, pinMaps);
      var l := BlockLayout(ordered, defs);
      && r.name == node.identifier
      && r.inputSignals == l.inputEnd && PinCount(r) == l.outputEnd
      && PinCount(r) + PinSum(r.blocks) == l.pinEnd <= r.nextSignal
      && Fits(r, l.pins, snapshots[|defs|])
      && AllEmitted(r.statements, l.pinEnd, r.nextSignal)
  {
    var n := |defs|;
    var l := BlockLayout(ordered, defs);
    var r := BlockValue(node, snapshots, ordered, defs, pinMaps);
    BlockPins(node, snapshots, ordered, defs, pinMaps);
    BlockPinsBelow(node, snapshots, ordered, defs, pinMaps);
    LowerStatementsSound(node.behaviourStatements, BlockScope(snapshots), BlockPinsOf(l, pinMaps), l.pinEnd);
    LayoutMeaning(snapshots[n], ordered, defs);
    IndexedMeaning(snapshots[n], ordered);
    forall p | p in snapshots[n] && !snapshots[n][p].typeData.kind.Block?
      ensures p in l.pins && l.pins[p] + snapshots[n][p].typeData.width <= PinCount(r)
    {
      var i :| 0 <= i < |ordered| && ordered[i].name == p;
    }
  }

  /** The three pin passes of generateBlock on a new block: the table
      records each symbol's first id, and the block holds only its pins and
      its instances. */
  method AssignPins(name: string, symbols: seq<Symbol>, defs: seq<BlockDef>, table: SymbolTable)
    returns (block: Block)
    requires InstancesBelow(symbols, |defs|) && table.signals == map[]
    modifies table`signals
    ensures fresh(block)
    ensures var l := BlockLayout(symbols, defs);
      && table.signals == l.pins
      && block.View() == BlockDef(name, l.inputEnd, l.outputEnd - l.inputEnd, Instances(symbols, defs), [], l.pinEnd)
  {
    block := new Block(name);
    AssignInputs(symbols, defs, table, block);
    AssignOutputs(symbols, defs, table, block);
    AssignInstances(symbols, defs, table, block);
  }

  /** generateBlock: runs the three pin passes over the table's symbols,
      recording each symbol's first id in the table, then emits the
      statements, and returns the finished block. */
  method GenerateBlock(node: BlockNode, table: SymbolTable, snapshots: seq<map<string, Symbol>>,
                       defs: seq<BlockDef>, pinMaps: seq<map<string, nat>>)
    returns (def: BlockDef)
    requires table.Valid() && table.signals == map[]
    requires |snapshots| == |defs| + 1 && snapshots[|defs|] == table.symbols
    requires Generable(node, snapshots, table.orderedSymbols, defs, pinMaps)
    modifies table`signals
    ensures def == BlockValue(node, snapshots, table.orderedSymbols, defs, pinMaps)
    ensures table.signals == BlockLayout(table.orderedSymbols, defs).pins
  {
    var symbols := table.GetSymbols();
    var block := AssignPins(node.identifier, symbols, defs, table);
    ghost var l := BlockLayout(symbols, defs);
    BlockPins(node, snapshots, symbols, defs, pinMaps);
    var pins := Pins(table.signals, pinMaps + [table.signals]);
    assert pins == BlockPinsOf(l, pinMaps);
    GenerateBehaviourStatements(node.behaviourStatements, BlockScope(snapshots), pins, block);
    def := block.View();
  }

  // ---------------------------------------------------------------------
  // The file

  /** What generate relies on for every top-level block: ordered[k] lists
      the symbols of snapshots[k], the block's statements type-check against
      the tables of blocks 0 to k, its constants are narrow and it
      instantiates only earlier blocks. */
  ghost predicate AllGenerable(blocks: seq<BlockNode>, snapshots: seq<map<string, Symbol>>, ordered: seq<seq<Symbol>>)
  {
    && |blocks| == |snapshots| == |ordered|
    && forall k :: 0 <= k < |blocks| ==>
         && Indexed(snapshots[k], ordered[k])
         && BlockChecked(blocks[k], snapshots[..k + 1])
         && NarrowStatements(blocks[k])
         && InstancesBelow(ordered[k], k)
  }

  /** A successful analysis leaves the blocks generable once their constants
      are narrow and no block instantiates itself or a later block. */
  lemma AnalysedGenerable(blocks: seq<BlockNode>, snapshots: seq<map<string, Symbol>>, ordered: seq<seq<Symbol>>)
    requires AllAnalysed(blocks, snapshots, ordered)
    requires forall k :: 0 <= k < |blocks| ==> NarrowStatements(blocks[k])
    requires |ordered| == |blocks| && forall k :: 0 <= k < |blocks| ==> InstancesBelow(ordered[k], k)
    ensures AllGenerable(blocks, snapshots, ordered)
  {
    AllAnalysedMeaning(blocks, snapshots, ordered);
  }

  /** Every generated block fits the ids recorded in its table. */
  ghost predicate AllFit(defs: seq<BlockDef>, pinMaps: seq<map<string, nat>>, snapshots: seq<map<string, Symbol>>)
  {
    && |defs| == |pinMaps| <= |snapshots|
    && forall k :: 0 <= k < |defs| ==> Fits(defs[k], pinMaps[k], snapshots[k])
  }

  /** Block i is generable once the blocks before it fit their tables. */
  lemma GenerableAt(blocks: seq<BlockNode>, snapshots: seq<map<string, Symbol>>, ordered: seq<seq<Symbol>>,
                    i: nat, defs: seq<BlockDef>, pinMaps: seq<map<string, nat>>)
    requires AllGenerable(blocks, snapshots, ordered) && i < |blocks|
    requires |defs| == i && AllFit(defs, pinMaps, snapshots)
    ensures Generable(blocks[i], snapshots[..i + 1], ordered[i], defs, pinMaps)
  {
    assert snapshots[..i + 1][i] == snapshots[i];
  }

  /** The first i blocks generateBlocks builds, and the ids it records in
      their tables: each block is generated against the blocks before it. */
  function Generated(blocks: seq<BlockNode>, snapshots: seq<map<string, Symbol>>, ordered: seq<seq<Symbol>>, i: nat)
    : (r: (seq<BlockDef>, seq<map<string, nat>>))
    requires AllGenerable(blocks, snapshots, ordered) && i <= |blocks|
    ensures |r.0| == i && AllFit(r.0, r.1, snapshots)
    decreases i
  {
    if i == 0 then ([], [])
    else
      var k := i - 1;
      var before := Generated(blocks, snapshots, ordered, k);
      NextFits(blocks, snapshots, ordered, k, before.0, before.1);
      (before.0 + [BlockValue(blocks[k], snapshots[..k + 1], ordered[k], before.0, before.1)],
       before.1 + [BlockLayout(ordered[k], before.0).pins])
  }

  /** Block k, generated against the blocks before it, fits its table too. */
  lemma NextFits(blocks: seq<BlockNode>, snapshots: seq<map<string, Symbol>>, ordered: seq<seq<Symbol>>,
                 k: nat, defs: seq<BlockDef>, pinMaps: seq<map<string, nat>>)
    requires AllGenerable(blocks, snapshots, ordered) && k < |blocks|
    requires |defs| == k && AllFit(defs, pinMaps, snapshots)
    ensures Generable(blocks[k], snapshots[..k + 1], ordered[k], defs, pinMaps)
    ensures AllFit(defs + [BlockValue(blocks[k], snapshots[..k + 1], ordered[k], defs, pinMaps)],
                   pinMaps + [BlockLayout(ordered[k], defs).pins], snapshots)
  {
    GenerableAt(blocks, snapshots, ordered, k, defs, pinMaps);
    BlockSound(blocks[k], snapshots[..k + 1], ordered[k], defs, pinMaps);
    assert snapshots[..k + 1][k] == snapshots[k];
  }

  /** Generating one more block appends the block generated against those
      before it. */
  lemma GeneratedStep(blocks: seq<BlockNode>, snapshots: seq<map<string, Symbol>>, ordered: seq<seq<Symbol>>, i: nat)
    requires AllGenerable(blocks, snapshots, ordered) && i < |blocks|
    ensures var before := Generated(blocks, snapshots, ordered, i);
      && Generable(blocks[i], snapshots[..i + 1], ordered[i], before.0, before.1)
      && Generated(blocks, snapshots, ordered, i + 1) ==
           (before.0 + [BlockValue(blocks[i], snapshots[..i + 1], ordered[i], before.0, before.1)],
            before.1 + [BlockLayout(ordered[i], before.0).pins])
  {
    assert snapshots[..i + 1][i] == snapshots[i];
  }

  lemma DistinctOthers<T>(s: seq<T>, i: nat)
    requires Distinct(s) && i < |s|
    ensures forall k :: 0 <= k < |s| && k != i ==> s[k] != s[i]
  {
    DistinctMeaning(s);
  }

  lemma TakeOneMore<T>(s: seq<T>, i: nat)
    requires i < |s|
    ensures s[..i] + [s[i]] == s[..i + 1]
  {
  }

  /** The tables hold the analysed symbols. */
  ghost predicate Holds(tables: seq<SymbolTable>, snapshots: seq<map<string, Symbol>>, ordered: seq<seq<Symbol>>)
    reads (set k | 0 <= k < |tables| :: tables[k])`symbols, (set k | 0 <= k < |tables| :: tables[k])`orderedSymbols
  {
    && |tables| == |snapshots| == |ordered|
    && forall k :: 0 <= k < |tables| ==> tables[k].symbols == snapshots[k] && tables[k].orderedSymbols == ordered[k]
  }

  /** The first |pinMaps| tables hold the ids the generator recorded, the
      others none yet. */
  ghost predicate Recorded(tables: seq<SymbolTable>, pinMaps: seq<map<string, nat>>)
    reads (set k | 0 <= k < |tables| :: tables[k])`signals
  {
    && |pinMaps| <= |tables|
    && forall k :: 0 <= k < |tables| ==> tables[k].signals == if k < |pinMaps| then pinMaps[k] else map[]
  }

  /** Generates block i into its table and appends it to the blocks before it. */
  method GenerateBlockAt(blocks: seq<BlockNode>, table: SymbolTable,
                         ghost snapshots: seq<map<string, Symbol>>, ghost ordered: seq<seq<Symbol>>, i: nat,
                         maps: seq<map<string, Symbol>>, defs: seq<BlockDef>, pinMaps: seq<map<string, nat>>)
    returns (maps': seq<map<string, Symbol>>, defs': seq<BlockDef>, pinMaps': seq<map<string, nat>>)
    requires AllGenerable(blocks, snapshots, ordered) && i < |blocks|
    requires maps == snapshots[..i] && (defs, pinMaps) == Generated(blocks, snapshots, ordered, i)
    requires table.symbols == snapshots[i] && table.orderedSymbols == ordered[i] && table.signals == map[]
    modifies table`signals
    ensures maps' == snapshots[..i + 1] && (defs', pinMaps') == Generated(blocks, snapshots, ordered, i + 1)
    ensures pinMaps' == pinMaps + [table.signals]
  {
    GeneratedStep(blocks, snapshots, ordered, i);
    TakeOneMore(snapshots, i);
    maps' := maps + [table.symbols];
    var def := GenerateBlock(blocks[i], table, maps', defs, pinMaps);
    defs' := defs + [def];
    pinMaps' := pinMaps + [table.signals];
  }

  /** One turn of generateBlocks: generates block i into its table and
      stores it after the blocks before it; no other table changes. */
  method GenerateNext(blocks: seq<BlockNode>, tables: seq<SymbolTable>,
                      ghost snapshots: seq<map<string, Symbol>>, ghost ordered: seq<seq<Symbol>>, i: nat,
                      maps: seq<map<string, Symbol>>, defs: seq<BlockDef>, pinMaps: seq<map<string, nat>>)
    returns (maps': seq<map<string, Symbol>>, defs': seq<BlockDef>, pinMaps': seq<map<string, nat>>)
    requires AllGenerable(blocks, snapshots, ordered) && i < |blocks| && Distinct(tables)
    requires maps == snapshots[..i] && (defs, pinMaps) == Generated(blocks, snapshots, ordered, i)
    requires |pinMaps| == i && Holds(tables, snapshots, ordered) && Recorded(tables, pinMaps)
    modifies {tables[i]}`signals
    ensures maps' == snapshots[..i + 1] && (defs', pinMaps') == Generated(blocks, snapshots, ordered, i + 1)
    ensures Recorded(tables, pinMaps')
  {
    DistinctOthers(tables, i);
    maps', defs', pinMaps' := GenerateBlockAt(blocks, tables[i], snapshots, ordered, i, maps, defs, pinMaps);
    forall k | 0 <= k < |tables|
      ensures tables[k].signals == if k < |pinMaps'| then pinMaps'[k] else map[]
    {
      if k < i {
        assert pinMaps'[k] == pinMaps[k];
      }
    }
  }

  /** generateBlocks and generate: the blocks in source order, each stored
      before the next is generated, so that later instances find it; the
      ids of every symbol end up recorded in its table. */
  method Generate(ast: RootNode, tables: seq<SymbolTable>,
                  ghost snapshots: seq<map<string, Symbol>>, ghost ordered: seq<seq<Symbol>>)
    returns (file: File)
    requires AllGenerable(ast.blocks, snapshots, ordered)
    requires Distinct(tables) && Holds(tables, snapshots, ordered) && Recorded(tables, [])
    modifies (set k | 0 <= k < |tables| :: tables[k])`signals
    ensures var g := Generated(ast.blocks, snapshots, ordered, |ast.blocks|);
      file == File(g.0) && Recorded(tables, g.1)
  {
    var blocks := ast.blocks;
    var defs: seq<BlockDef> := [];
    var pinMaps: seq<map<string, nat>> := [];
    var maps: seq<map<string, Symbol>> := [];
    for i := 0 to |blocks|
      invariant maps == snapshots[..i]
      invariant (defs, pinMaps) == Generated(blocks, snapshots, ordered, i)
      invariant Recorded(tables, pinMaps)
    {
      maps, defs, pinMaps := GenerateNext(blocks, tables, snapshots, ordered, i, maps, defs, pinMaps);
    }
    file := File(defs);
  }

  // ---------------------------------------------------------------------
  // The half adder

  /** `in a; in b; out s; out c;`, in declaration order. */
  function HalfAdderSymbols(): seq<Symbol>
  {
    [Symbol("a", TypeData(In, 1)), Symbol("b", TypeData(In, 1)),
     Symbol("s", TypeData(Out, 1)), Symbol("c", TypeData(Out, 1))]
  }

  /** The half adder's symbol table. */
  function HalfAdderTable(): map<string, Symbol>
  {
    map["a" := Symbol("a", TypeData(In, 1)), "b" := Symbol("b", TypeData(In, 1)),
        "s" := Symbol("s", TypeData(Out, 1)), "c" := Symbol("c", TypeData(Out, 1))]
  }

  function SignalNamed(name: string): BehaviourIdentifierNode
  {
    BehaviourIdentifierNode(name, None, None)
  }

  /** `s = a ^ b; c = a & b;` */
  function HalfAdderStatements(): seq<BehaviourStatementNode>
  {
    [BehaviourStatementNode(SignalNamed("s"), Binary(Xor, Variable(SignalNamed("a")), Variable(SignalNamed("b")))),
     BehaviourStatementNode(SignalNamed("c"), Binary(And, Variable(SignalNamed("a")), Variable(SignalNamed("b"))))]
  }

  /** The three passes give the inputs ids 0 and 1 and the outputs ids 2
      and 3; there are no instances. */
  lemma HalfAdderLayout()
    ensures BlockLayout(HalfAdderSymbols(), []) == Layout(map["a" := 0, "b" := 1, "s" := 2, "c" := 3], 2, 4, 4)
  {
    var ordered := HalfAdderSymbols();
    var a, b, sum, carry := ordered[0], ordered[1], ordered[2], ordered[3];
    assert ordered[..3] == [a, b, sum] && ordered[..3][..2] == [a, b];
    assert ordered[..3][..2][..1] == [a] && ordered[..3][..2][..1][..0] == [];
    var inputs := map["a" := 0, "b" := 1];
    var outputs := map["a" := 0, "b" := 1, "s" := 2, "c" := 3];
    forall kind: PassKind
      ensures PassSize([a], kind, []) == (if kind == InputPass then 1 else 0)
      ensures PassSize([a, b], kind, []) == (if kind == InputPass then 2 else 0)
      ensures PassSize([a, b, sum], kind, []) == (if kind == InputPass then 2 else if kind == OutputPass then 1 else 0)
      ensures PassSize(ordered, kind, []) == (if kind == InstancePass then 0 else 2)
    {
    }
    assert [a, b][..1] == [a] && [a][..0] == [];
    assert PassPins([a], InputPass, 0, [], map[]) == map["a" := 0];
    assert PassPins([a, b], InputPass, 0, [], map[]) == inputs;
    assert PassPins(ordered, InputPass, 0, [], map[]) == inputs;
    assert PassPins([a], OutputPass, 2, [], inputs) == inputs;
    assert PassPins([a, b], OutputPass, 2, [], inputs) == inputs;
    assert PassPins([a, b, sum], OutputPass, 2, [], inputs) == inputs["s" := 2];
    assert PassPins(ordered, OutputPass, 2, [], inputs) == outputs;
    assert PassPins([a], InstancePass, 4, [], outputs) == outputs;
    assert PassPins([a, b], InstancePass, 4, [], outputs) == outputs;
    assert PassPins(ordered, InstancePass, 4, [], outputs) == outputs;
  }

  /** The scope the analyzer gives the half adder: its own table, no instances. */
  function HalfAdderScope(): Scope
  {
    Scope(HalfAdderTable(), map[], [HalfAdderTable()])
  }

  /** The pin ids the three passes give the half adder (see HalfAdderLayout). */
  function HalfAdderPins(): Pins
  {
    var pinMap := map["a" := 0, "b" := 1, "s" := 2, "c" := 3];
    Pins(pinMap, [pinMap])
  }

  /** From the first id after the pins, `s = a ^ b;` lowers to an XOR of
      ids 0 and 1 into id 4 and a CONNECT from 4 to s, and `c = a & b;` to
      an AND into id 5 and a CONNECT from 5 to c. */
  lemma HalfAdderLowered()
    ensures SaneScope(HalfAdderScope()) && PinsCover(HalfAdderScope(), HalfAdderPins())
    ensures StatementsChecked(HalfAdderStatements(), HalfAdderScope())
    ensures LowerStatements(HalfAdderStatements(), HalfAdderScope(), HalfAdderPins(), 4)
            == ([Gate(XOR, 0, 1, 4), Unary(CONNECT, 4, 2), Gate(AND, 0, 1, 5), Unary(CONNECT, 5, 3)], 6)
  {
    HalfAdderSane();
    HalfAdderChecked();
    HalfAdderGate(0, 4);
    HalfAdderGate(1, 5);
    LowerPair(HalfAdderStatements(), HalfAdderScope(), HalfAdderPins(), 4);
    assert [Gate(XOR, 0, 1, 4), Unary(CONNECT, 4, 2)] + [Gate(AND, 0, 1, 5), Unary(CONNECT, 5, 3)]
           == [Gate(XOR, 0, 1, 4), Unary(CONNECT, 4, 2), Gate(AND, 0, 1, 5), Unary(CONNECT, 5, 3)];
  }

  /** The half adder's scope is sane and its pins cover every signal. */
  lemma HalfAdderSane()
    ensures SaneScope(HalfAdderScope()) && PinsCover(HalfAdderScope(), HalfAdderPins())
  {
  }

  /** Both statements of the half adder pass the analyzer and use narrow constants only. */
  lemma HalfAdderChecked()
    requires SaneScope(HalfAdderScope()) && PinsCover(HalfAdderScope(), HalfAdderPins())
    ensures StatementsChecked(HalfAdderStatements(), HalfAdderScope())
  {
    forall k | 0 <= k < |HalfAdderStatements()|
      ensures AnalyzeBehaviourStatement(HalfAdderStatements()[k], HalfAdderScope()).Success?
      ensures Narrow(HalfAdderStatements()[k].expression)
    {
      HalfAdderGate(k, 4);
    }
  }

  /** Two statements lower to the first one's code followed by the second one's. */
  lemma LowerPair(statements: seq<BehaviourStatementNode>, scope: Scope, pins: Pins, next: nat)
    requires SaneScope(scope) && PinsCover(scope, pins)
    requires |statements| == 2 && StatementsChecked(statements, scope)
    ensures var first := LowerStatement(statements[0], scope, pins, next);
      var second := LowerStatement(statements[1], scope, pins, first.next);
      LowerStatements(statements, scope, pins, next) == (first.statements + second.statements, second.next)
  {
    var first := statements[..1];
    assert first[..0] == [] && first == [statements[0]];
    assert StatementsChecked(first, scope);
    var lowered := LowerStatement(statements[0], scope, pins, next);
    assert LowerStatements(first, scope, pins, next) == ([] + lowered.statements, lowered.next);
    assert [] + lowered.statements == lowered.statements;
    assert statements[..|statements| - 1] == first;
  }

  /** Statement k of the half adder, `target = a OP b;` with target id 2 + k,
      lowered from id next: the gate into next, then a CONNECT from next to
      the target. */
  lemma HalfAdderGate(k: nat, next: nat)
    requires k < 2
    requires SaneScope(HalfAdderScope()) && PinsCover(HalfAdderScope(), HalfAdderPins())
    ensures AnalyzeBehaviourStatement(HalfAdderStatements()[k], HalfAdderScope()).Success?
    ensures Narrow(HalfAdderStatements()[k].expression)
    ensures LowerStatement(HalfAdderStatements()[k], HalfAdderScope(), HalfAdderPins(), next)
            == Lowered(2 + k, [Gate(if k == 0 then XOR else AND, 0, 1, next), Unary(CONNECT, next, 2 + k)], next + 1)
  {
    var scope, pins := HalfAdderScope(), HalfAdderPins();
    var statement := HalfAdderStatements()[k];
    var e := statement.expression;
    var target := 2 + k;
    assert statement.behaviourIdentifier.identifier in pins.local;
    assert pins.local[statement.behaviourIdentifier.identifier] == target;
    assert WidthOf(e, scope) == 1;
    var lowered := LowerExpression(e, scope, pins, next);
    assert LowerExpression(e.leftOperand, scope, pins, next) == Lowered(0, [], next);
    assert LowerExpression(e.rightOperand, scope, pins, next) == Lowered(1, [], next);
    assert GateRow(GateOp(e.op), 0, 1, next, 1) == [Gate(GateOp(e.op), 0, 1, next)];
    assert lowered == Lowered(next, [Gate(GateOp(e.op), 0, 1, next)], next + 1);
    assert UnaryRow(CONNECT, next, target, 1) == [Unary(CONNECT, next, target)];
  }
}
