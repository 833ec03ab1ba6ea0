/** The Rust linker (src/linker/mod.rs). Unlike Linker::link it starts from
    an empty list and checks every input, the first one included, so a
    successful link has pairwise distinct block names. */
module LinkerRs {
  import Linker
  import IntermediateRs

  /** ErrorKind; its Display text is `duplicate definition of block '<name>'`. */
  datatype ErrorKind = DuplicateBlock(name: string)

  datatype LinkResult = Ok(blocks: seq<IntermediateRs.BlockValue>) | Err(error: ErrorKind)

  function BlockName(b: IntermediateRs.BlockValue): string
  {
    b.name
  }

  /** The blocks of several inputs, input after input. */
  function Concat(inputs: seq<seq<IntermediateRs.BlockValue>>): (blocks: seq<IntermediateRs.BlockValue>)
    decreases |inputs|
  {
    if inputs == [] then [] else inputs[0] + Concat(inputs[1..])
  }

  /** No two blocks share a name. */
  ghost predicate DistinctNames(blocks: seq<IntermediateRs.BlockValue>)
  {
    forall j, k :: 0 <= j < k < |blocks| ==> blocks[j].name != blocks[k].name
  }

  /** Linker::link_two: appends the source blocks one by one, each after a
      scan of everything already in the target. */
  method LinkTwo(target: seq<IntermediateRs.BlockValue>, source: seq<IntermediateRs.BlockValue>) returns (r: LinkResult)
    ensures r == match Linker.Absorb(target, source, BlockName)
                 case Linked(blocks) => Ok(blocks)
                 case Duplicate(name) => Err(DuplicateBlock(name))
  {
    var output := target;
    var i := 0;
    while i < |source|
      invariant i <= |source|
      invariant Linker.Absorb(target, source, BlockName) == Linker.Absorb(output, source[i..], BlockName)
    {
      var taken := Linker.FindName(output, BlockName, source[i].name);
      if taken {
        return Err(DuplicateBlock(source[i].name));
      }
      assert source[i..][1..] == source[i + 1..];
      output := output + [source[i]];
      i := i + 1;
    }
    assert source[i..] == [];
    return Ok(output);
  }

  /** Linker::link: every input, in order, is linked into a list that starts
      empty. Success means all names are distinct, and the output is every
      block in input order; a failure names the first block whose name was
      taken. */
  method Link(inputs: seq<seq<IntermediateRs.BlockValue>>) returns (r: LinkResult)
    ensures r.Ok? <==> DistinctNames(Concat(inputs))
    ensures r.Ok? ==> r.blocks == Concat(inputs)
    ensures r.Err? ==> exists k: nat :: Linker.FirstDuplicate(Concat(inputs), BlockName, 0, k)
                                        && r.error == DuplicateBlock(Concat(inputs)[k].name)
  {
    if inputs == [] {
      r := Ok([]);
    } else {
      r := LinkAll(inputs);
    }
    LinkMeaning(inputs);
  }

  /** The loop of Linker::link, proved against the collision rule. */
  method LinkAll(inputs: seq<seq<IntermediateRs.BlockValue>>) returns (r: LinkResult)
    ensures r == match Linker.Absorb([], Concat(inputs), BlockName)
                 case Linked(blocks) => Ok(blocks)
                 case Duplicate(name) => Err(DuplicateBlock(name))
  {
    var output := [];
    var i := 0;
    while i < |inputs|
      invariant i <= |inputs|
      invariant Linker.Absorb([], Concat(inputs), BlockName) == Linker.Absorb(output, Concat(inputs[i..]), BlockName)
    {
      var step := LinkTwo(output, inputs[i]);
      assert Concat(inputs[i..]) == inputs[i] + Concat(inputs[i + 1..]) by {
        assert inputs[i..][1..] == inputs[i + 1..];
      }
      Linker.AbsorbConcat(output, inputs[i], Concat(inputs[i + 1..]), BlockName);
      if step.Err? {
        return step;
      }
      output := step.blocks;
      i := i + 1;
    }
    assert inputs[i..] == [];
    return Ok(output);
  }

  /** What linking from an empty list means, read off the collision rule. */
  lemma {:induction false} LinkMeaning(inputs: seq<seq<IntermediateRs.BlockValue>>)
    ensures var linked := Linker.Absorb([], Concat(inputs), BlockName);
      && (linked.Linked? <==> DistinctNames(Concat(inputs)))
      && (linked.Linked? ==> linked.blocks == Concat(inputs))
      && (linked.Duplicate? ==> exists k: nat :: Linker.FirstDuplicate(Concat(inputs), BlockName, 0, k)
                                                && linked.name == Concat(inputs)[k].name)
  {
    var all := Concat(inputs);
    assert [] + all == all;
    Linker.AbsorbMeaning([], all, BlockName);
    if Linker.Absorb([], all, BlockName).Duplicate? {
      Linker.AbsorbDuplicate([], all, BlockName);
    }
    DistinctIsClashFree(all);
  }

  lemma {:induction false} DistinctIsClashFree(blocks: seq<IntermediateRs.BlockValue>)
    ensures Linker.ClashFree(blocks, BlockName, 0) <==> DistinctNames(blocks)
  {
    if Linker.ClashFree(blocks, BlockName, 0) {
      forall j, k | 0 <= j < k < |blocks|
        ensures blocks[j].name != blocks[k].name
      {
        assert BlockName(blocks[j]) != BlockName(blocks[k]);
      }
    }
  }
}
