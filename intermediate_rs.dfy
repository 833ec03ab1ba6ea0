/** The Rust tree's intermediate representation (src/shared/intermediate.rs).
    It mirrors the C++ one: a block's counters only grow, pins come first,
    nested blocks next and statements last. Counters are unbounded naturals
    here; the Rust fields are u32. */
module IntermediateRs {
  import Intermediate

  datatype IntermediateOp = Connect | Const0 | Const1 | And | Or | Xor | Not | Mux

  datatype IntermediateError =
    | NoMoreInputSignals
    | NoMoreOutputSignals
    | NoMoreBlocks
    | StatementSizeInvalid(op: string, size: Intermediate.U16)

  /** Rust's Result<T, IntermediateError>. */
  datatype Fallible<T> = Ok(value: T) | Err(error: IntermediateError)

  datatype IntermediateStatement = IntermediateStatement(
    op: IntermediateOp, size: Intermediate.U16, inputSignalIds: seq<nat>, outputSignalIds: seq<nat>)

  /** A block once it is shared: what a Weak reference upgrades to. */
  datatype BlockValue = BlockValue(
    name: string,
    inputSignalCount: nat,
    outputSignalCount: nat,
    blocks: seq<BlockValue>,
    statements: seq<IntermediateStatement>,
    nextSignalId: nat)

  function Pow2(n: nat): (p: nat)
    ensures p > 0
  {
    if n == 0 then 1 else 2 * Pow2(n - 1)
  }

  /** The (inputs, outputs) arity table of IntermediateStatement::new, for the
      sizes it accepts. */
  function Arity(op: IntermediateOp, size: Intermediate.U16): (nat, nat)
  {
    match op
    case Connect => (1, 1)
    case Const0 => (0, 1)
    case Const1 => (0, 1)
    case And => (size, 1)
    case Or => (size, 1)
    case Xor => (size, 1)
    case Not => (1, 1)
    case Mux => (size + Pow2(size), 1)
  }

  /** IntermediateStatement::new: Connect and NOT must be one bit wide; every
      slot starts as signal 0. `1 << size` overflows the shift for a MUX of
      64 or more address lines, so such a call is excluded. */
  function NewStatement(op: IntermediateOp, size: Intermediate.U16): (r: Fallible<IntermediateStatement>)
    requires op == Mux ==> size < 64
    ensures r.Err? <==> (op == Connect || op == Not) && size != 1
    ensures r.Err? ==> r.error == StatementSizeInvalid(if op == Connect then "Connect" else "NOT", size)
    ensures r.Ok? ==> && r.value.op == op && r.value.size == size
                      && |r.value.inputSignalIds| == Arity(op, size).0
                      && |r.value.outputSignalIds| == 1
                      && (forall i :: 0 <= i < |r.value.inputSignalIds| ==> r.value.inputSignalIds[i] == 0)
                      && r.value.outputSignalIds == [0]
  {
    if op == Connect && size != 1 then Err(StatementSizeInvalid("Connect", size))
    else if op == Not && size != 1 then Err(StatementSizeInvalid("NOT", size))
    else
      var (inputCount, outputCount) := Arity(op, size);
      Ok(IntermediateStatement(op, size, seq(inputCount, _ => 0), seq(outputCount, _ => 0)))
  }

  /** The operation codes the C++ tree uses for the same operations. */
  function OpCode(op: IntermediateOp): (code: Intermediate.Operation)
    ensures Intermediate.IsOperation(code)
  {
    match op
    case Connect => Intermediate.CONNECT
    case Const0 => Intermediate.CONST0
    case Const1 => Intermediate.CONST1
    case And => Intermediate.AND
    case Or => Intermediate.OR
    case Xor => Intermediate.XOR
    case Not => Intermediate.NOT
    case Mux => Intermediate.MUX
  }

  /** The two trees build the same statements: wherever both are defined
      (a MUX below 32 address lines), they accept the same (op, size) pairs
      and give the same slot counts, all starting at signal 0. */
  lemma {:induction false} NewStatementAgrees(op: IntermediateOp, size: Intermediate.U16)
    requires op == Mux ==> size < 32
    ensures var rust := NewStatement(op, size);
      var cpp := Intermediate.NewStatement(OpCode(op), size);
      && (rust.Ok? <==> cpp.Success?)
      && (rust.Ok? ==> rust.value.inputSignalIds == cpp.value.inputs
                       && rust.value.outputSignalIds == cpp.value.outputs)
  {
    var rust := NewStatement(op, size);
    var cpp := Intermediate.NewStatement(OpCode(op), size);
    if rust.Ok? {
      assert Intermediate.InputCount(OpCode(op), size) == Arity(op, size).0 by {
        if op == Mux {
          PowersAgree(size);
        }
      }
      assert rust.value.inputSignalIds == cpp.value.inputs;
    }
  }

  lemma {:induction false} PowersAgree(n: nat)
    ensures Pow2(n) == Intermediate.Pow2(n)
  {
    if n > 0 {
      PowersAgree(n - 1);
    }
  }

  /** set_input: overwrites exactly one slot; indexing past the end panics,
      so callers stay in range. */
  function SetInput(s: IntermediateStatement, index: nat, signalId: nat): (r: IntermediateStatement)
    requires index < |s.inputSignalIds|
    ensures r.op == s.op && r.size == s.size && r.outputSignalIds == s.outputSignalIds
    ensures |r.inputSignalIds| == |s.inputSignalIds| && r.inputSignalIds[index] == signalId
    ensures forall i :: 0 <= i < |s.inputSignalIds| && i != index ==> r.inputSignalIds[i] == s.inputSignalIds[i]
  {
    s.(inputSignalIds := s.inputSignalIds[index := signalId])
  }

  /** set_output: overwrites exactly one slot. */
  function SetOutput(s: IntermediateStatement, index: nat, signalId: nat): (r: IntermediateStatement)
    requires index < |s.outputSignalIds|
    ensures r.op == s.op && r.size == s.size && r.inputSignalIds == s.inputSignalIds
    ensures |r.outputSignalIds| == |s.outputSignalIds| && r.outputSignalIds[index] == signalId
    ensures forall i :: 0 <= i < |s.outputSignalIds| && i != index ==> r.outputSignalIds[i] == s.outputSignalIds[i]
  {
    s.(outputSignalIds := s.outputSignalIds[index := signalId])
  }

  /** IntermediateBlock while it is being built. */
  class IntermediateBlock {
    const name: string
    var inputSignalCount: nat
    var outputSignalCount: nat
    var blocks: seq<BlockValue>
    var statements: seq<IntermediateStatement>
    var nextSignalId: nat

    function View(): BlockValue
      reads this
    {
      BlockValue(name, inputSignalCount, outputSignalCount, blocks, statements, nextSignalId)
    }

    /** Only pins so far, inputs at [0, inputSignalCount) and outputs right
        after them. */
    ghost predicate PinPhase()
      reads this
    {
      blocks == [] && statements == [] && nextSignalId == inputSignalCount + outputSignalCount
    }

    constructor (name: string)
      ensures View() == BlockValue(name, 0, 0, [], [], 0)
      ensures PinPhase()
    {
      this.name := name;
      inputSignalCount := 0;
      outputSignalCount := 0;
      blocks := [];
      statements := [];
      nextSignalId := 0;
    }

    method AllocateSignals(count: nat) returns (baseSignalId: nat)
      modifies this`nextSignalId
      ensures baseSignalId == old(nextSignalId) && nextSignalId == baseSignalId + count
    {
      baseSignalId := nextSignalId;
      nextSignalId := nextSignalId + count;
    }

    method AllocateInputSignals(count: nat) returns (r: Fallible<nat>)
      modifies this`inputSignalCount, this`nextSignalId
      ensures r.Err? <==> old(outputSignalCount > 0 || blocks != [] || statements != [])
      ensures r.Err? ==> r.error == NoMoreInputSignals
      ensures r.Ok? ==> r.value == old(nextSignalId)
                        && inputSignalCount == old(inputSignalCount) + count
                        && nextSignalId == old(nextSignalId) + count
      ensures r.Err? ==> inputSignalCount == old(inputSignalCount) && nextSignalId == old(nextSignalId)
      ensures old(PinPhase()) && r.Ok? ==> r.value == old(inputSignalCount) && PinPhase()
    {
      if outputSignalCount > 0 || blocks != [] || statements != [] {
        return Err(NoMoreInputSignals);
      }
      var baseSignalId := nextSignalId;
      inputSignalCount := inputSignalCount + count;
      nextSignalId := nextSignalId + count;
      return Ok(baseSignalId);
    }

    method AllocateOutputSignals(count: nat) returns (r: Fallible<nat>)
      modifies this`outputSignalCount, this`nextSignalId
      ensures r.Err? <==> old(blocks != [] || statements != [])
      ensures r.Err? ==> r.error == NoMoreOutputSignals
      ensures r.Ok? ==> r.value == old(nextSignalId)
                        && outputSignalCount == old(outputSignalCount) + count
                        && nextSignalId == old(nextSignalId) + count
      ensures r.Err? ==> outputSignalCount == old(outputSignalCount) && nextSignalId == old(nextSignalId)
      ensures old(PinPhase()) ==> r.Ok? && r.value == inputSignalCount + old(outputSignalCount) && PinPhase()
    {
      if blocks != [] || statements != [] {
        return Err(NoMoreOutputSignals);
      }
      var baseSignalId := nextSignalId;
      outputSignalCount := outputSignalCount + count;
      nextSignalId := nextSignalId + count;
      return Ok(baseSignalId);
    }

    /** add_block: reserves the nested block's pins and keeps a reference. */
    method AddBlock(block: BlockValue) returns (r: Fallible<nat>)
      modifies this`blocks, this`nextSignalId
      ensures r.Err? <==> old(statements != [])
      ensures r.Err? ==> r.error == NoMoreBlocks && blocks == old(blocks) && nextSignalId == old(nextSignalId)
      ensures r.Ok? ==> && r.value == old(nextSignalId)
                        && nextSignalId == old(nextSignalId) + block.inputSignalCount + block.outputSignalCount
                        && blocks == old(blocks) + [block]
    {
      if statements != [] {
        return Err(NoMoreBlocks);
      }
      var baseSignalId := nextSignalId;
      nextSignalId := nextSignalId + block.inputSignalCount + block.outputSignalCount;
      blocks := blocks + [block];
      return Ok(baseSignalId);
    }

    method AddStatement(statement: IntermediateStatement)
      modifies this`statements
      ensures statements == old(statements) + [statement]
    {
      statements := statements + [statement];
    }
  }
}
