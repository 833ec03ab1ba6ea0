/** The intermediate representation (src/shared/Intermediate.cpp): bit-level
    statements grouped into blocks. Signal ids are unbounded naturals here;
    the C++ stores them in 32-bit fields. */
module Intermediate {
  import opened Wrappers

  type U16 = x: int | 0 <= x < 0x1_0000

  /** Intermediate::Operation as its numeric value. A value read from a file
      is cast to the enum unchecked, so any 16-bit value can reach the
      statement constructor. */
  type Operation = U16

  const CONNECT: Operation := 1
  const CONST0: Operation := 2
  const CONST1: Operation := 3
  const AND: Operation := 4
  const OR: Operation := 5
  const XOR: Operation := 6
  const NOT: Operation := 7
  const MUX: Operation := 8

  // Error messages
  const InvalidOperatorMessage := "Invalid intermediate statement operator"
  const ConnectSizeMessage := "CONNECT statements with size other than 1 not supported"
  const NotSizeMessage := "NOT statements with size other than 1 not supported"
  const MuxWidthMessage := "MUX address width exceeds the shift range"
  const RangeCheckMessage := "vector::_M_range_check"
  const InputsAfterMessage := "Can't add input signals after adding output signals, blocks or statements"
  const OutputsAfterMessage := "Can't add output signals after adding blocks or statements"
  const BlockAfterMessage := "Can't add block after adding statements"

  /** One operation over `size` bits with its input and output signal ids. */
  datatype Statement = Statement(op: Operation, size: U16, inputs: seq<nat>, outputs: seq<nat>)

  predicate IsOperation(op: Operation)
  {
    CONNECT <= op <= MUX
  }

  /** Sizes the statement constructor accepts: CONNECT and NOT only act on one
      bit, and a MUX's `1u << size` data lines are defined only below 32. */
  predicate SizeAccepted(op: Operation, size: U16)
  {
    && (op == CONNECT || op == NOT ==> size == 1)
    && (op == MUX ==> size < 32)
  }

  function Pow2(n: nat): (p: nat)
    ensures p > 0
  {
    if n == 0 then 1 else 2 * Pow2(n - 1)
  }

  /** Number of input slots: one for CONNECT and NOT, none for the constants,
      one per operand bit for AND/OR/XOR, and for a MUX `size` address lines
      plus 2^size data lines. */
  function InputCount(op: Operation, size: U16): nat
    requires IsOperation(op) && SizeAccepted(op, size)
  {
    if op == CONST0 || op == CONST1 then 0
    else if op == MUX then size + Pow2(size)
    else if op == CONNECT || op == NOT then 1
    else size
  }

  /** A statement whose slot counts are the ones its constructor gives it. */
  ghost predicate WellFormed(s: Statement)
  {
    && IsOperation(s.op) && SizeAccepted(s.op, s.size)
    && |s.inputs| == InputCount(s.op, s.size)
    && |s.outputs| == 1
  }

  /** Statement(op, size): every slot starts as signal 0. The C++ throws for
      an unknown operation and for a CONNECT or NOT wider than one bit; a MUX
      with 32 or more address lines is undefined behaviour there and an error
      here. */
  function NewStatement(op: Operation, size: U16): (r: Result<Statement>)
    ensures r.Success? <==> IsOperation(op) && SizeAccepted(op, size)
    ensures r.Success? ==> WellFormed(r.value) && r.value.op == op && r.value.size == size
    ensures r.Success? ==> (forall i :: 0 <= i < |r.value.inputs| ==> r.value.inputs[i] == 0)
                           && r.value.outputs == [0]
  {
    if !IsOperation(op) then Failure(InvalidOperatorMessage)
    else if op == CONNECT && size != 1 then Failure(ConnectSizeMessage)
    else if op == NOT && size != 1 then Failure(NotSizeMessage)
    else if op == MUX && size >= 32 then Failure(MuxWidthMessage)
    else Success(Statement(op, size, seq(InputCount(op, size), _ => 0), [0]))
  }

  /** inputs.at(index) = signal: out of range is an error, nothing else changes. */
  function SetInput(s: Statement, index: nat, signal: nat): (r: Result<Statement>)
    ensures r.Success? <==> index < |s.inputs|
    ensures r.Success? ==> r.value.op == s.op && r.value.size == s.size && r.value.outputs == s.outputs
    ensures r.Success? ==> |r.value.inputs| == |s.inputs| && r.value.inputs[index] == signal
    ensures r.Success? ==> forall i :: 0 <= i < |s.inputs| && i != index ==> r.value.inputs[i] == s.inputs[i]
    ensures r.Success? && WellFormed(s) ==> WellFormed(r.value)
  {
    if index < |s.inputs| then Success(s.(inputs := s.inputs[index := signal]))
    else Failure(RangeCheckMessage)
  }

  /** outputs.at(index) = signal: out of range is an error, nothing else changes. */
  function SetOutput(s: Statement, index: nat, signal: nat): (r: Result<Statement>)
    ensures r.Success? <==> index < |s.outputs|
    ensures r.Success? ==> r.value.op == s.op && r.value.size == s.size && r.value.inputs == s.inputs
    ensures r.Success? ==> |r.value.outputs| == |s.outputs| && r.value.outputs[index] == signal
    ensures r.Success? ==> forall i :: 0 <= i < |s.outputs| && i != index ==> r.value.outputs[i] == s.outputs[i]
    ensures r.Success? && WellFormed(s) ==> WellFormed(r.value)
  {
    if index < |s.outputs| then Success(s.(outputs := s.outputs[index := signal]))
    else Failure(RangeCheckMessage)
  }

  /** A finished block: the value of an Intermediate::Block once it is
      referenced from a file or from another block. Nested blocks are held
      by value, since no stage changes a block after it is referenced. */
  datatype BlockDef = BlockDef(
    name: string,
    inputSignals: nat,
    outputSignals: nat,
    blocks: seq<BlockDef>,
    statements: seq<Statement>,
    nextSignal: nat)

  /** The signals a block exposes to the block that instantiates it. */
  function PinCount(b: BlockDef): nat
  {
    b.inputSignals + b.outputSignals
  }

  /** The pins of a sequence of nested blocks, in order. */
  function PinSum(blocks: seq<BlockDef>): nat
  {
    if blocks == [] then 0 else PinSum(blocks[..|blocks| - 1]) + PinCount(blocks[|blocks| - 1])
  }

  /** Intermediate::File: the top-level blocks of a compilation unit, in order. */
  datatype File = File(blocks: seq<BlockDef>)

  /** Intermediate::Block while it is being built. */
  class Block {
    const name: string
    var inputSignals: nat
    var outputSignals: nat
    var blocks: seq<BlockDef>
    var statements: seq<Statement>
    var nextSignal: nat

    function View(): BlockDef
      reads this
    {
      BlockDef(name, inputSignals, outputSignals, blocks, statements, nextSignal)
    }

    /** Only input pins so far: they occupy ids [0, inputSignals). */
    ghost predicate InputPhase()
      reads this
    {
      outputSignals == 0 && blocks == [] && statements == [] && nextSignal == inputSignals
    }

    /** Only pins so far: inputs at [0, inputSignals), outputs right after. */
    ghost predicate PinPhase()
      reads this
    {
      blocks == [] && statements == [] && nextSignal == inputSignals + outputSignals
    }

    constructor (name: string)
      ensures View() == BlockDef(name, 0, 0, [], [], 0)
      ensures InputPhase() && PinPhase()
    {
      this.name := name;
      inputSignals := 0;
      outputSignals := 0;
      blocks := [];
      statements := [];
      nextSignal := 0;
    }

    /** The constructor used when reading a file: ids after the pins are free. */
    constructor FromParts(name: string, inputSignals: nat, outputSignals: nat,
                          blocks: seq<BlockDef>, statements: seq<Statement>)
      ensures View() == BlockDef(name, inputSignals, outputSignals, blocks, statements,
                                 inputSignals + outputSignals)
    {
      this.name := name;
      this.inputSignals := inputSignals;
      this.outputSignals := outputSignals;
      this.blocks := blocks;
      this.statements := statements;
      nextSignal := inputSignals + outputSignals;
    }

    /** Reserves count consecutive fresh ids and returns the first. */
    method AllocateSignals(count: nat) returns (baseSignal: nat)
      modifies this`nextSignal
      ensures baseSignal == old(nextSignal) && nextSignal == baseSignal + count
    {
      baseSignal := nextSignal;
      nextSignal := nextSignal + count;
    }

    method AllocateInputSignals(count: nat) returns (r: Result<nat>)
      modifies this`inputSignals, this`nextSignal
      ensures r.Failure? <==> old(outputSignals > 0 || blocks != [] || statements != [])
      ensures r.Success? ==> r.value == old(nextSignal)
                             && inputSignals == old(inputSignals) + count
                             && nextSignal == old(nextSignal) + count
      ensures r.Failure? ==> inputSignals == old(inputSignals) && nextSignal == old(nextSignal)
      ensures old(InputPhase()) ==> r.Success? && r.value == old(inputSignals) && InputPhase()
    {
      if outputSignals > 0 || blocks != [] || statements != [] {
        return Failure(InputsAfterMessage);
      }
      var baseSignal := nextSignal;
      inputSignals := inputSignals + count;
      nextSignal := nextSignal + count;
      return Success(baseSignal);
    }

    method AllocateOutputSignals(count: nat) returns (r: Result<nat>)
      modifies this`outputSignals, this`nextSignal
      ensures r.Failure? <==> old(blocks != [] || statements != [])
      ensures r.Success? ==> r.value == old(nextSignal)
                             && outputSignals == old(outputSignals) + count
                             && nextSignal == old(nextSignal) + count
      ensures r.Failure? ==> outputSignals == old(outputSignals) && nextSignal == old(nextSignal)
      ensures old(PinPhase()) ==> r.Success? && r.value == inputSignals + old(outputSignals) && PinPhase()
    {
      if blocks != [] || statements != [] {
        return Failure(OutputsAfterMessage);
      }
      var baseSignal := nextSignal;
      outputSignals := outputSignals + count;
      nextSignal := nextSignal + count;
      return Success(baseSignal);
    }

    /** Appends a nested block; its pins get the next PinCount(nested) ids. */
    method AddBlock(nested: BlockDef) returns (r: Result<nat>)
      modifies this`blocks, this`nextSignal
      ensures r.Failure? <==> old(statements != [])
      ensures r.Success? ==> blocks == old(blocks) + [nested]
                             && r.value == old(nextSignal)
                             && nextSignal == old(nextSignal) + PinCount(nested)
      ensures r.Failure? ==> blocks == old(blocks) && nextSignal == old(nextSignal)
    {
      if statements != [] {
        return Failure(BlockAfterMessage);
      }
      blocks := blocks + [nested];
      var baseSignal := nextSignal;
      nextSignal := nextSignal + nested.inputSignals + nested.outputSignals;
      return Success(baseSignal);
    }

    method AddStatement(statement: Statement)
      modifies this`statements
      ensures statements == old(statements) + [statement]
    {
      statements := statements + [statement];
    }
  }
}
