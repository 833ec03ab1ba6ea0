/** The linker (src/linker/Linker.cpp): joins the intermediate files of
    several compilation units by appending their block lists in order,
    refusing a block whose name is already taken.

    The collision rule is shared with the Rust linker (src/linker/mod.rs,
    module LinkerRs), so it is stated here once, over any block type `B`
    whose name is read by `key`. */
module Linker {
  import opened Wrappers
  import opened Intermediate

  /** What absorbing blocks one by one ends in: the grown list, or the first
      name that was already taken. */
  datatype Linked<B> = Linked(blocks: seq<B>) | Duplicate(name: string)

  /** Some block of `blocks` is called `name`. */
  ghost predicate Defines<B>(blocks: seq<B>, key: B -> string, name: string)
  {
    exists j :: 0 <= j < |blocks| && key(blocks[j]) == name
  }

  /** Every block at position `from` or later differs in name from every
      block before it; blocks before `from` may share names. */
  ghost predicate ClashFree<B>(blocks: seq<B>, key: B -> string, from: nat)
  {
    forall j, k :: 0 <= j < k < |blocks| && from <= k ==> key(blocks[j]) != key(blocks[k])
  }

  /** Position `k` holds the first block at or after `from` whose name is
      already used by an earlier block. */
  ghost predicate FirstDuplicate<B>(blocks: seq<B>, key: B -> string, from: nat, k: nat)
  {
    from <= k < |blocks| && ClashFree(blocks[..k], key, from) && Defines(blocks[..k], key, key(blocks[k]))
  }

  /** The collision rule, one source block at a time: each block is compared
      with everything already in the list, including blocks appended just
      before it. */
  ghost function Absorb<B>(target: seq<B>, source: seq<B>, key: B -> string): (r: Linked<B>)
    ensures r.Linked? ==> |r.blocks| == |target| + |source|
    decreases |source|
  {
    if source == [] then Linked(target)
    else if Defines(target, key, key(source[0])) then Duplicate(key(source[0]))
    else Absorb(target + [source[0]], source[1..], key)
  }

  /** Splitting the positions that must be fresh at the end of the first part. */
  lemma {:induction false} ClashFreeSplit<B>(a: seq<B>, b: seq<B>, key: B -> string, from: nat)
    requires from <= |a|
    ensures ClashFree(a + b, key, from) <==> ClashFree(a, key, from) && ClashFree(a + b, key, |a|)
  {
    if ClashFree(a, key, from) && ClashFree(a + b, key, |a|) {
      forall j, k | 0 <= j < k < |a + b| && from <= k
        ensures key((a + b)[j]) != key((a + b)[k])
      {
        if k < |a| {
          assert (a + b)[j] == a[j] && (a + b)[k] == a[k];
        }
      }
    }
    if ClashFree(a + b, key, from) {
      forall j, k | 0 <= j < k < |a| && from <= k
        ensures key(a[j]) != key(a[k])
      {
        assert (a + b)[j] == a[j] && (a + b)[k] == a[k];
      }
    }
  }

  /** A list ending in one block is clash-free from that block on exactly
      when no earlier block has its name. */
  lemma {:induction false} ClashFreeLast<B>(a: seq<B>, x: B, key: B -> string)
    ensures ClashFree(a + [x], key, |a|) <==> !Defines(a, key, key(x))
  {
    if Defines(a, key, key(x)) {
      var j :| 0 <= j < |a| && key(a[j]) == key(x);
      assert (a + [x])[j] == a[j] && (a + [x])[|a|] == x;
    } else {
      forall j, k | 0 <= j < k < |a + [x]| && |a| <= k
        ensures key((a + [x])[j]) != key((a + [x])[k])
      {
        assert (a + [x])[j] == a[j] && (a + [x])[k] == x;
      }
    }
  }

  /** Absorbing succeeds exactly when every source block is fresh against
      all blocks before it, and then the result is the two lists joined in
      order. */
  lemma {:induction false} AbsorbMeaning<B>(target: seq<B>, source: seq<B>, key: B -> string)
    ensures Absorb(target, source, key).Linked? <==> ClashFree(target + source, key, |target|)
    ensures Absorb(target, source, key).Linked? ==> Absorb(target, source, key).blocks == target + source
    decreases |source|
  {
    if source == [] {
      assert target + source == target;
    } else {
      var x := source[0];
      var next := target + [x];
      assert target + source == next + source[1..];
      ClashFreeLast(target, x, key);
      ClashFreeSplit(next, source[1..], key, |target|);
      if !Defines(target, key, key(x)) {
        AbsorbMeaning(next, source[1..], key);
      }
    }
  }

  /** Otherwise absorbing reports the name of the first source block that is
      not fresh. */
  lemma {:induction false} AbsorbDuplicate<B>(target: seq<B>, source: seq<B>, key: B -> string)
    requires Absorb(target, source, key).Duplicate?
    ensures exists k: nat :: FirstDuplicate(target + source, key, |target|, k)
                             && Absorb(target, source, key).name == key((target + source)[k])
    decreases |source|
  {
    var all := target + source;
    var x := source[0];
    var next := target + [x];
    assert all == next + source[1..];
    assert all[..|target|] == target && all[|target|] == x;
    if Defines(target, key, key(x)) {
      assert ClashFree(target, key, |target|);
      assert FirstDuplicate(all, key, |target|, |target|);
    } else {
      AbsorbDuplicate(next, source[1..], key);
      ClashFreeLast(target, x, key);
      var k: nat :| FirstDuplicate(all, key, |next|, k)
                    && Absorb(next, source[1..], key).name == key(all[k]);
      assert all[..k] == next + all[|next|..k];
      ClashFreeSplit(next, all[|next|..k], key, |target|);
      assert FirstDuplicate(all, key, |target|, k);
    }
  }

  /** Absorbing two lists in turn is absorbing their concatenation: linking
      file by file is linking all their blocks at once. */
  lemma {:induction false} AbsorbConcat<B>(target: seq<B>, first: seq<B>, second: seq<B>, key: B -> string)
    ensures Absorb(target, first + second, key) ==
      match Absorb(target, first, key)
      case Linked(grown) => Absorb(grown, second, key)
      case Duplicate(name) => Duplicate(name)
    decreases |first|
  {
    if first == [] {
      assert first + second == second;
    } else {
      assert (first + second)[0] == first[0];
      assert (first + second)[1..] == first[1..] + second;
      if !Defines(target, key, key(first[0])) {
        AbsorbConcat(target + [first[0]], first[1..], second, key);
      }
    }
  }

  /** The scan of linkTwo's inner loop: is `name` already in the list? */
  method FindName<B>(blocks: seq<B>, key: B -> string, name: string) returns (found: bool)
    ensures found <==> Defines(blocks, key, name)
  {
    var j := 0;
    while j < |blocks|
      invariant j <= |blocks|
      invariant forall i :: 0 <= i < j ==> key(blocks[i]) != name
    {
      if key(blocks[j]) == name {
        return true;
      }
      j := j + 1;
    }
    return false;
  }

  function BlockName(b: BlockDef): string
  {
    b.name
  }

  const DuplicatePrefix := "Linker: duplicate definition of block \""
  const DuplicateSuffix := "\""

  /** The CompilerError linkTwo throws for a taken name. */
  function DuplicateMessage(name: string): (m: string)
    ensures |m| == |DuplicatePrefix| + |name| + |DuplicateSuffix|
    ensures m[..|DuplicatePrefix|] == DuplicatePrefix && m[|DuplicatePrefix|..|DuplicatePrefix| + |name|] == name
  {
    DuplicatePrefix + name + DuplicateSuffix
  }

  /** The blocks of several files, file after file. */
  function AllBlocks(files: seq<File>): (blocks: seq<BlockDef>)
    decreases |files|
  {
    if files == [] then [] else files[0].blocks + AllBlocks(files[1..])
  }

  lemma {:induction false} AllBlocksCount(files: seq<File>)
    ensures |AllBlocks(files)| == BlockCountSum(files)
    decreases |files|
  {
    if files != [] {
      AllBlocksCount(files[1..]);
    }
  }

  /** The number of blocks in several files. */
  function BlockCountSum(files: seq<File>): nat
    decreases |files|
  {
    if files == [] then 0 else |files[0].blocks| + BlockCountSum(files[1..])
  }

  /** Linker::linkTwo: appends the source file's blocks to the target one
      by one, first scanning the whole target (blocks appended a moment ago
      included) for the same name. */
  method LinkTwo(target: seq<BlockDef>, source: seq<BlockDef>) returns (r: Result<seq<BlockDef>>)
    ensures r.Success? <==> ClashFree(target + source, BlockName, |target|)
    ensures r.Success? ==> r.value == target + source
    ensures r.Failure? ==> exists k: nat :: FirstDuplicate(target + source, BlockName, |target|, k)
                                       && r.error == DuplicateMessage((target + source)[k].name)
    ensures r == match Absorb(target, source, BlockName)
                 case Linked(blocks) => Success(blocks)
                 case Duplicate(name) => Failure(DuplicateMessage(name))
  {
    var output := target;
    var i := 0;
    while i < |source|
      invariant i <= |source|
      invariant output == target + source[..i]
      invariant Absorb(target, source, BlockName) == Absorb(output, source[i..], BlockName)
    {
      var taken := FindName(output, BlockName, source[i].name);
      if taken {
        AbsorbMeaning(target, source, BlockName);
        AbsorbDuplicate(target, source, BlockName);
        return Failure(DuplicateMessage(source[i].name));
      }
      assert source[i..][1..] == source[i + 1..];
      output := output + [source[i]];
      i := i + 1;
    }
    assert source[..i] == source;
    AbsorbMeaning(target, source, BlockName);
    return Success(output);
  }

  /** Linker::link: no inputs give an empty file; otherwise the output
      starts as a copy of the first file, whose blocks are not compared with
      each other, and every later file is linked into it in turn. */
  method Link(inputs: seq<File>) returns (r: Result<File>)
    ensures inputs == [] ==> r == Success(File([]))
    ensures inputs != [] ==>
      && (r.Success? <==> ClashFree(AllBlocks(inputs), BlockName, |inputs[0].blocks|))
      && (r.Success? ==> r.value == File(AllBlocks(inputs)))
      && (r.Failure? ==> exists k: nat :: FirstDuplicate(AllBlocks(inputs), BlockName, |inputs[0].blocks|, k)
                                     && r.error == DuplicateMessage(AllBlocks(inputs)[k].name))
  {
    if inputs == [] {
      return Success(File([]));
    }
    var first := inputs[0].blocks;
    var output := first;
    var i := 1;
    while i < |inputs|
      invariant 1 <= i <= |inputs|
      invariant Absorb(first, AllBlocks(inputs[1..]), BlockName) == Absorb(output, AllBlocks(inputs[i..]), BlockName)
    {
      var step := LinkTwo(output, inputs[i].blocks);
      assert AllBlocks(inputs[i..]) == inputs[i].blocks + AllBlocks(inputs[i + 1..]) by {
        assert inputs[i..][1..] == inputs[i + 1..];
      }
      AbsorbConcat(output, inputs[i].blocks, AllBlocks(inputs[i + 1..]), BlockName);
      if step.Failure? {
        LinkMeaning(inputs);
        return Failure(step.error);
      }
      output := step.value;
      i := i + 1;
    }
    assert inputs[i..] == [];
    assert Absorb(first, AllBlocks(inputs[1..]), BlockName) == Linked(output);
    LinkMeaning(inputs);
    return Success(File(output));
  }

  /** What linking several files means, read off the collision rule. */
  lemma {:induction false} LinkMeaning(inputs: seq<File>)
    requires inputs != []
    ensures var linked := Absorb(inputs[0].blocks, AllBlocks(inputs[1..]), BlockName);
      && (linked.Linked? <==> ClashFree(AllBlocks(inputs), BlockName, |inputs[0].blocks|))
      && (linked.Linked? ==> linked.blocks == AllBlocks(inputs))
      && (linked.Duplicate? ==> exists k: nat :: FirstDuplicate(AllBlocks(inputs), BlockName, |inputs[0].blocks|, k)
                                             && linked.name == AllBlocks(inputs)[k].name)
  {
    assert AllBlocks(inputs) == inputs[0].blocks + AllBlocks(inputs[1..]);
    AbsorbMeaning(inputs[0].blocks, AllBlocks(inputs[1..]), BlockName);
    if Absorb(inputs[0].blocks, AllBlocks(inputs[1..]), BlockName).Duplicate? {
      AbsorbDuplicate(inputs[0].blocks, AllBlocks(inputs[1..]), BlockName);
    }
  }

  /** On success the output holds as many blocks as all inputs together. */
  lemma {:induction false} LinkedCount(inputs: seq<File>)
    requires inputs != []
    requires Absorb(inputs[0].blocks, AllBlocks(inputs[1..]), BlockName).Linked?
    ensures |Absorb(inputs[0].blocks, AllBlocks(inputs[1..]), BlockName).blocks| == BlockCountSum(inputs)
  {
    LinkMeaning(inputs);
    AllBlocksCount(inputs);
  }
}
