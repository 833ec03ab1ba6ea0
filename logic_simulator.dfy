/** The logic-simulator backend's elaboration
    (src/backend/LogicSimulator/LogicSimulator.cpp): the main block is
    inlined into one flat circuit of one-bit components. Every instance of
    a block, however often the same definition is used, gets its own fresh
    range of global signal ids. */
module LogicSimulator {
  import opened Wrappers
  import opened Intermediate

  datatype ComponentType = Connect | Const0 | Const1 | And | Or | Xor | Not

  /** A component of the circuit: its kind and its global input and output
      signal ids. The C++ builds it by value and copies it into the circuit. */
  datatype Component = Component(kind: ComponentType, inputs: seq<nat>, outputs: seq<nat>)
  {
    function AddInput(signal: nat): (c: Component)
      ensures c.kind == kind && c.inputs == inputs + [signal] && c.outputs == outputs
    {
      this.(inputs := inputs + [signal])
    }

    function AddOutput(signal: nat): (c: Component)
      ensures c.kind == kind && c.inputs == inputs && c.outputs == outputs + [signal]
    {
      this.(outputs := outputs + [signal])
    }
  }

  const NoMainBlock := "'main' block not defined"
  const MainName := "main"

  const UnsupportedPrefix := "Unsupported intermediate operation "

  function UnsupportedOperation(op: Operation): string
  {
    UnsupportedPrefix + Decimal(op)
  }

  /** The circuit being built: the main block's pin counts, the number of
      signal ids handed out so far, and the components in emission order. */
  class Circuit {
    const inputSignalCount: nat
    const outputSignalCount: nat
    var signalCount: nat
    var components: seq<Component>

    constructor (inputSignalCount: nat, outputSignalCount: nat)
      ensures this.inputSignalCount == inputSignalCount && this.outputSignalCount == outputSignalCount
      ensures signalCount == 0 && components == []
    {
      this.inputSignalCount := inputSignalCount;
      this.outputSignalCount := outputSignalCount;
      signalCount := 0;
      components := [];
    }

    /** Hands out count fresh ids and returns the first. */
    method AllocateSignals(count: nat) returns (baseSignal: nat)
      modifies this`signalCount
      ensures baseSignal == old(signalCount) && signalCount == old(signalCount) + count
    {
      baseSignal := signalCount;
      signalCount := signalCount + count;
    }

    method AddComponent(component: Component)
      modifies this`components
      ensures components == old(components) + [component]
    {
      components := components + [component];
    }
  }

  // ---------------------------------------------------------------------
  // Elaboration, as values

  /** The component for an intermediate operation; MUX and unknown values
      have none. */
  function ComponentTypeOf(op: Operation): (r: Option<ComponentType>)
    ensures r.Some? <==> CONNECT <= op <= NOT
  {
    if op == CONNECT then Some(Connect)
    else if op == CONST0 then Some(Const0)
    else if op == CONST1 then Some(Const1)
    else if op == AND then Some(And)
    else if op == OR then Some(Or)
    else if op == XOR then Some(Xor)
    else if op == NOT then Some(Not)
    else None
  }

  /** Every id moved up by base. */
  function Shifted(ids: seq<nat>, base: nat): (r: seq<nat>)
    ensures |r| == |ids|
  {
    if ids == [] then [] else Shifted(ids[..|ids| - 1], base) + [base + ids[|ids| - 1]]
  }

  /** Id i of the shifted list is id i of the original plus base. */
  lemma {:induction false} ShiftedMeaning(ids: seq<nat>, base: nat)
    ensures forall i :: 0 <= i < |ids| ==> Shifted(ids, base)[i] == base + ids[i]
    decreases |ids|
  {
    if ids != [] {
      var n := |ids| - 1;
      ShiftedMeaning(ids[..n], base);
      assert forall i :: 0 <= i < n ==> ids[..n][i] == ids[i];
    }
  }

  /** A statement of the block as a component of the circuit: same
      operation, ids moved into the instance's local range. */
  function Translate(s: Statement, localBase: nat): (r: Result<Component>)
  {
    match ComponentTypeOf(s.op)
    case None => Failure(UnsupportedOperation(s.op))
    case Some(kind) => Success(Component(kind, Shifted(s.inputs, localBase), Shifted(s.outputs, localBase)))
  }

  /** The statements translated in order, stopping at the first one that
      has no component. */
  function TranslateAll(statements: seq<Statement>, localBase: nat): (r: Result<seq<Component>>)
    decreases |statements|
  {
    if statements == [] then Success([])
    else
      var n := |statements| - 1;
      var before := TranslateAll(statements[..n], localBase);
      if before.Failure? then before
      else
        var c := Translate(statements[n], localBase);
        if c.Failure? then Failure(c.error) else Success(before.value + [c.value])
  }

  /** Statement k is the first whose operation has no component. */
  ghost predicate FirstUnsupported(statements: seq<Statement>, k: int)
  {
    && 0 <= k < |statements|
    && !(CONNECT <= statements[k].op <= NOT)
    && forall i :: 0 <= i < k ==> CONNECT <= statements[i].op <= NOT
  }

  /** The translation succeeds exactly when every operation has a component;
      then it has one component per statement, and otherwise it fails with
      the message for the first statement without one. */
  lemma {:induction false} TranslateAllMeaning(statements: seq<Statement>, localBase: nat)
    ensures var r := TranslateAll(statements, localBase);
      && (r.Success? <==> forall i :: 0 <= i < |statements| ==> CONNECT <= statements[i].op <= NOT)
      && (r.Success? ==>
            && |r.value| == |statements|
            && forall i :: 0 <= i < |statements| ==> Translate(statements[i], localBase) == Success(r.value[i]))
      && (r.Failure? ==>
            exists k :: FirstUnsupported(statements, k) && r.error == UnsupportedOperation(statements[k].op))
    decreases |statements|
  {
    if statements != [] {
      var n := |statements| - 1;
      var prefix := statements[..n];
      TranslateAllMeaning(prefix, localBase);
      assert forall i :: 0 <= i < n ==> statements[i] == prefix[i];
      var before := TranslateAll(prefix, localBase);
      if before.Failure? {
        var k :| FirstUnsupported(prefix, k) && before.error == UnsupportedOperation(prefix[k].op);
        assert FirstUnsupported(statements, k);
      } else if !(CONNECT <= statements[n].op <= NOT) {
        assert FirstUnsupported(statements, n);
      }
    }
  }

  /** Once statement i has no component, the translation of every longer
      prefix fails with its message. */
  lemma {:induction false} TranslateAllStops(statements: seq<Statement>, localBase: nat, i: nat, j: nat)
    requires i < j <= |statements|
    requires TranslateAll(statements[..i], localBase).Success?
    requires Translate(statements[i], localBase).Failure?
    ensures TranslateAll(statements[..j], localBase) == Failure(Translate(statements[i], localBase).error)
    decreases j
  {
    assert statements[..j][..j - 1] == statements[..j - 1];
    if j > i + 1 {
      TranslateAllStops(statements, localBase, i, j - 1);
    }
  }

  /** n connections from from+i to to+i. */
  function ConnectRow(from: nat, to: nat, n: nat): (r: seq<Component>)
    ensures |r| == n
  {
    if n == 0 then [] else ConnectRow(from, to, n - 1) + [Component(Connect, [from + n - 1], [to + n - 1])]
  }

  /** Connection i of a row connects from+i to to+i. */
  lemma {:induction false} ConnectRowMeaning(from: nat, to: nat, n: nat)
    ensures forall i :: 0 <= i < n ==> ConnectRow(from, to, n)[i] == Component(Connect, [from + i], [to + i])
  {
    if n > 0 {
      ConnectRowMeaning(from, to, n - 1);
    }
  }

  /** The loop over a list of ids that raises the local signal count past
      every id. */
  function IdBound(ids: seq<nat>, count: nat): nat
    decreases |ids|
  {
    if ids == [] then count
    else
      var before := IdBound(ids[..|ids| - 1], count);
      var id := ids[|ids| - 1];
      if id >= before then id + 1 else before
  }

  /** The local-signal loop over every statement's inputs, then outputs. */
  function StatementsBound(statements: seq<Statement>, count: nat): nat
    decreases |statements|
  {
    if statements == [] then count
    else
      var n := |statements| - 1;
      IdBound(statements[n].outputs, IdBound(statements[n].inputs, StatementsBound(statements[..n], count)))
  }

  /** The raised count is the least one above both the start and every id. */
  lemma {:induction false} IdBoundMeaning(ids: seq<nat>, count: nat)
    ensures var r := IdBound(ids, count);
      && count <= r
      && (forall i :: 0 <= i < |ids| ==> ids[i] < r)
      && (r == count || r - 1 in ids)
    decreases |ids|
  {
    if ids != [] {
      var n := |ids| - 1;
      IdBoundMeaning(ids[..n], count);
      assert forall i :: 0 <= i < n ==> ids[i] == ids[..n][i];
    }
  }

  /** Every id a statement names lies below the bound. */
  ghost predicate IdsBelow(s: Statement, bound: nat)
  {
    (forall i :: 0 <= i < |s.inputs| ==> s.inputs[i] < bound) && (forall i :: 0 <= i < |s.outputs| ==> s.outputs[i] < bound)
  }

  /** The statement names id as an input or an output. */
  predicate Names(s: Statement, id: int)
  {
    id in s.inputs || id in s.outputs
  }

  /** The statements' bound covers the start and every id, and is the least
      such: it is the start or one more than some id. */
  lemma {:induction false} StatementsBoundMeaning(statements: seq<Statement>, count: nat)
    ensures var r := StatementsBound(statements, count);
      && count <= r
      && (forall k :: 0 <= k < |statements| ==> IdsBelow(statements[k], r))
      && (r == count || exists k :: 0 <= k < |statements| && Names(statements[k], r - 1))
    decreases |statements|
  {
    if statements != [] {
      var n := |statements| - 1;
      var last := statements[n];
      var before := StatementsBound(statements[..n], count);
      var mid := IdBound(last.inputs, before);
      StatementsBoundMeaning(statements[..n], count);
      IdBoundMeaning(last.inputs, before);
      IdBoundMeaning(last.outputs, mid);
      var r := StatementsBound(statements, count);
      forall k | 0 <= k < |statements| ensures IdsBelow(statements[k], r) {
        if k < n {
          assert statements[k] == statements[..n][k];
          assert IdsBelow(statements[..n][k], before);
        }
      }
      if r != count && r != before {
        assert Names(statements[n], r - 1);
      } else if r != count {
        var k :| 0 <= k < n && Names(statements[..n][k], before - 1);
        assert statements[..n][k] == statements[k];
      }
    }
  }

  /** The ids of an instance's local range: at least one per pin and per
      pin of its nested blocks, and more if a statement names a higher id. */
  function LocalCount(b: BlockDef): nat
  {
    StatementsBound(b.statements, PinCount(b) + PinSum(b.blocks))
  }

  /** The local range holds the pins, the nested pins and every id the
      statements name. */
  lemma {:induction false} LocalCountCovers(b: BlockDef)
    ensures PinCount(b) + PinSum(b.blocks) <= LocalCount(b)
    ensures forall k :: 0 <= k < |b.statements| ==> IdsBelow(b.statements[k], LocalCount(b))
  {
    StatementsBoundMeaning(b.statements, PinCount(b) + PinSum(b.blocks));
  }

  /** The ids elaborating the first k nested blocks of b hands out. */
  function NestedSize(b: BlockDef, k: nat): nat
    requires k <= |b.blocks|
    decreases b, k
  {
    if k == 0 then 0 else NestedSize(b, k - 1) + Size(b.blocks[k - 1])
  }

  /** The ids elaborating b hands out: its public pins, its nested blocks'
      ids, then its local range. */
  function Size(b: BlockDef): nat
    decreases b, |b.blocks| + 1
  {
    PinCount(b) + NestedSize(b, |b.blocks|) + LocalCount(b)
  }

  /** The first id of each of the first k nested blocks, nested blocks
      starting at start. */
  function NestedBases(b: BlockDef, start: nat, k: nat): (r: seq<nat>)
    requires k <= |b.blocks|
    ensures |r| == k
  {
    if k == 0 then [] else NestedBases(b, start, k - 1) + [start + NestedSize(b, k - 1)]
  }

  /** Nested block i starts after the ids of the blocks before it. */
  lemma {:induction false} NestedBasesMeaning(b: BlockDef, start: nat, k: nat)
    requires k <= |b.blocks|
    ensures forall i :: 0 <= i < k ==> NestedBases(b, start, k)[i] == start + NestedSize(b, i)
  {
    if k > 0 {
      NestedBasesMeaning(b, start, k - 1);
    }
  }

  /** For every nested block, one connection per pin from the nested
      instance's public pin to the next id of the local range after to. */
  function NestedConnects(blocks: seq<BlockDef>, bases: seq<nat>, to: nat): seq<Component>
    requires |bases| == |blocks|
    decreases |blocks|
  {
    if blocks == [] then []
    else
      var n := |blocks| - 1;
      NestedConnects(blocks[..n], bases[..n], to) + ConnectRow(bases[n], to + PinSum(blocks[..n]), PinCount(blocks[n]))
  }

  /** Once the k-th nested block fails, elaborating any longer prefix of
      the nested blocks fails with its message. */
  lemma {:induction false} ElaborateNestedStops(b: BlockDef, start: nat, k: nat, m: nat)
    requires k <= m <= |b.blocks|
    requires ElaborateNested(b, k, start).Failure?
    ensures ElaborateNested(b, m, start) == ElaborateNested(b, k, start)
    decreases m
  {
    if m > k {
      ElaborateNestedStops(b, start, k, m - 1);
    }
  }

  /** What generateBlock emits after the nested instances, once the local
      range starts at localBase: the public-to-local connections of the
      pins, the connections of the nested pins, then the statements. */
  function LocalComponents(b: BlockDef, base: nat, localBase: nat, bases: seq<nat>): Result<seq<Component>>
    requires |bases| == |b.blocks|
  {
    var statements := TranslateAll(b.statements, localBase);
    if statements.Failure? then Failure(statements.error)
    else
      Success(ConnectRow(base, localBase, PinCount(b))
              + NestedConnects(b.blocks, bases, localBase + PinCount(b))
              + statements.value)
  }

  /** The components generateBlock emits for b when the circuit has handed
      out base ids: the nested instances, then the local components. */
  function Elaborate(b: BlockDef, base: nat): Result<seq<Component>>
    decreases b, |b.blocks| + 1
  {
    var start := base + PinCount(b);
    var nested := ElaborateNested(b, |b.blocks|, start);
    if nested.Failure? then Failure(nested.error)
    else
      var local := LocalComponents(b, base, start + NestedSize(b, |b.blocks|), NestedBases(b, start, |b.blocks|));
      if local.Failure? then local else Success(nested.value + local.value)
  }

  /** A successful elaboration is its nested instances followed by its
      local components. */
  lemma {:induction false} ElaborateJoins(b: BlockDef, base: nat)
    ensures var start := base + PinCount(b);
      var nested := ElaborateNested(b, |b.blocks|, start);
      var local := LocalComponents(b, base, start + NestedSize(b, |b.blocks|), NestedBases(b, start, |b.blocks|));
      && (Elaborate(b, base).Success? <==> nested.Success? && local.Success?)
      && (Elaborate(b, base).Success? ==> Elaborate(b, base).value == nested.value + local.value)
  {
  }

  /** The first k nested blocks of b elaborated in order from start, each
      from the first id after the previous one's. */
  function ElaborateNested(b: BlockDef, k: nat, start: nat): Result<seq<Component>>
    requires k <= |b.blocks|
    decreases b, k
  {
    if k == 0 then Success([])
    else
      var before := ElaborateNested(b, k - 1, start);
      if before.Failure? then before
      else
        var e := Elaborate(b.blocks[k - 1], start + NestedSize(b, k - 1));
        if e.Failure? then e else Success(before.value + e.value)
  }

  // ---------------------------------------------------------------------
  // Every instance stays inside its own range of ids

  /** Every id the component reads or drives lies in [lo, hi). */
  ghost predicate Within(c: Component, lo: nat, hi: nat)
  {
    && (forall i :: 0 <= i < |c.inputs| ==> lo <= c.inputs[i] < hi)
    && (forall i :: 0 <= i < |c.outputs| ==> lo <= c.outputs[i] < hi)
  }

  ghost predicate AllWithin(components: seq<Component>, lo: nat, hi: nat)
  {
    forall k :: 0 <= k < |components| ==> Within(components[k], lo, hi)
  }

  lemma {:induction false} AllWithinAppend(a: seq<Component>, b: seq<Component>, lo: nat, hi: nat)
    requires AllWithin(a, lo, hi) && AllWithin(b, lo, hi)
    ensures AllWithin(a + b, lo, hi)
  {
    forall k | 0 <= k < |a + b| ensures Within((a + b)[k], lo, hi) {
      if k >= |a| {
        assert (a + b)[k] == b[k - |a|];
      }
    }
  }

  lemma {:induction false} AllWithinWiden(components: seq<Component>, lo: nat, hi: nat, lo': nat, hi': nat)
    requires AllWithin(components, lo, hi) && lo' <= lo && hi <= hi'
    ensures AllWithin(components, lo', hi')
  {
    forall k | 0 <= k < |components| ensures Within(components[k], lo', hi') {
      assert Within(components[k], lo, hi);
    }
  }

  /** A row of connections from [from, from+n) to [to, to+n) stays inside
      any range holding both. */
  lemma {:induction false} ConnectRowWithin(from: nat, to: nat, n: nat, lo: nat, hi: nat)
    requires lo <= from && from + n <= hi && lo <= to && to + n <= hi
    ensures AllWithin(ConnectRow(from, to, n), lo, hi)
  {
    ConnectRowMeaning(from, to, n);
    forall k | 0 <= k < n ensures Within(ConnectRow(from, to, n)[k], lo, hi) {
      assert ConnectRow(from, to, n)[k] == Component(Connect, [from + k], [to + k]);
    }
  }

  /** The nested-pin connections read the nested instances' public pins and
      drive the ids after to. */
  lemma {:induction false} NestedConnectsWithin(blocks: seq<BlockDef>, bases: seq<nat>, to: nat, lo: nat, hi: nat)
    requires |bases| == |blocks|
    requires forall k :: 0 <= k < |blocks| ==> lo <= bases[k] && bases[k] + PinCount(blocks[k]) <= hi
    requires lo <= to && to + PinSum(blocks) <= hi
    ensures AllWithin(NestedConnects(blocks, bases, to), lo, hi)
    decreases |blocks|
  {
    if blocks != [] {
      var n := |blocks| - 1;
      forall k | 0 <= k < n ensures lo <= bases[..n][k] && bases[..n][k] + PinCount(blocks[..n][k]) <= hi {
        assert bases[..n][k] == bases[k] && blocks[..n][k] == blocks[k];
      }
      NestedConnectsWithin(blocks[..n], bases[..n], to, lo, hi);
      ConnectRowWithin(bases[n], to + PinSum(blocks[..n]), PinCount(blocks[n]), lo, hi);
      AllWithinAppend(NestedConnects(blocks[..n], bases[..n], to),
                      ConnectRow(bases[n], to + PinSum(blocks[..n]), PinCount(blocks[n])), lo, hi);
    }
  }

  /** A translated statement whose ids lie below bound touches only the
      local range [localBase, localBase + bound). */
  lemma {:induction false} TranslateWithin(s: Statement, localBase: nat, bound: nat)
    requires IdsBelow(s, bound) && Translate(s, localBase).Success?
    ensures Within(Translate(s, localBase).value, localBase, localBase + bound)
  {
    ShiftedMeaning(s.inputs, localBase);
    ShiftedMeaning(s.outputs, localBase);
  }

  lemma {:induction false} TranslateAllWithin(statements: seq<Statement>, localBase: nat, bound: nat)
    requires forall k :: 0 <= k < |statements| ==> IdsBelow(statements[k], bound)
    ensures var t := TranslateAll(statements, localBase);
      t.Success? ==> AllWithin(t.value, localBase, localBase + bound)
    decreases |statements|
  {
    var t := TranslateAll(statements, localBase);
    if statements != [] && t.Success? {
      var n := |statements| - 1;
      forall k | 0 <= k < n ensures IdsBelow(statements[..n][k], bound) {
        assert statements[..n][k] == statements[k];
      }
      TranslateAllWithin(statements[..n], localBase, bound);
      TranslateWithin(statements[n], localBase, bound);
      var c := Translate(statements[n], localBase).value;
      assert AllWithin([c], localBase, localBase + bound);
      AllWithinAppend(TranslateAll(statements[..n], localBase).value, [c], localBase, localBase + bound);
    }
  }

  /** The nested blocks take up more ids the more of them are counted. */
  lemma {:induction false} NestedSizeGrows(b: BlockDef, i: nat, j: nat)
    requires i <= j <= |b.blocks|
    ensures NestedSize(b, i) <= NestedSize(b, j)
    decreases j
  {
    if i < j {
      NestedSizeGrows(b, i, j - 1);
    }
  }

  /** Distinct nested instances of a block get disjoint ranges of ids:
      instance i ends before instance j starts. */
  lemma {:induction false} NestedRangesDisjoint(b: BlockDef, start: nat, i: nat, j: nat)
    requires i < j < |b.blocks|
    ensures var bases := NestedBases(b, start, |b.blocks|);
      bases[i] + Size(b.blocks[i]) <= bases[j]
  {
    NestedBasesMeaning(b, start, |b.blocks|);
    NestedSizeGrows(b, i + 1, j);
  }

  /** Each nested instance's public pins lie between start and the end of
      the nested ids. */
  lemma {:induction false} NestedBasesBelow(b: BlockDef, start: nat)
    ensures var bases := NestedBases(b, start, |b.blocks|);
      forall k :: 0 <= k < |b.blocks| ==>
        start <= bases[k] && bases[k] + PinCount(b.blocks[k]) <= start + NestedSize(b, |b.blocks|)
  {
    var bases := NestedBases(b, start, |b.blocks|);
    NestedBasesMeaning(b, start, |b.blocks|);
    forall k | 0 <= k < |b.blocks|
      ensures start <= bases[k] && bases[k] + PinCount(b.blocks[k]) <= start + NestedSize(b, |b.blocks|)
    {
      NestedSizeGrows(b, k + 1, |b.blocks|);
    }
  }

  /** The connections of the public and nested pins read those pins and
      drive the first ids of the local range. */
  lemma {:induction false} PinConnectsWithin(b: BlockDef, base: nat)
    ensures var start := base + PinCount(b);
      var localBase := start + NestedSize(b, |b.blocks|);
      AllWithin(ConnectRow(base, localBase, PinCount(b))
                + NestedConnects(b.blocks, NestedBases(b, start, |b.blocks|), localBase + PinCount(b)),
                base, base + Size(b))
  {
    var start := base + PinCount(b);
    var localBase := start + NestedSize(b, |b.blocks|);
    var bases := NestedBases(b, start, |b.blocks|);
    var hi := base + Size(b);
    assert hi == localBase + LocalCount(b);
    NestedBasesBelow(b, start);
    LocalCountCovers(b);
    ConnectRowWithin(base, localBase, PinCount(b), base, hi);
    NestedConnectsWithin(b.blocks, bases, localBase + PinCount(b), base, hi);
    AllWithinAppend(ConnectRow(base, localBase, PinCount(b)), NestedConnects(b.blocks, bases, localBase + PinCount(b)), base, hi);
  }

  /** The local components read the block's public pins and the nested
      instances' public pins, and otherwise stay in the local range. */
  lemma {:induction false} LocalWithin(b: BlockDef, base: nat)
    ensures var start := base + PinCount(b);
      var l := LocalComponents(b, base, start + NestedSize(b, |b.blocks|), NestedBases(b, start, |b.blocks|));
      l.Success? ==> AllWithin(l.value, base, base + Size(b))
  {
    var start := base + PinCount(b);
    var localBase := start + NestedSize(b, |b.blocks|);
    var bases := NestedBases(b, start, |b.blocks|);
    var l := LocalComponents(b, base, localBase, bases);
    if l.Success? {
      var hi := base + Size(b);
      assert hi == localBase + LocalCount(b);
      var pins := ConnectRow(base, localBase, PinCount(b)) + NestedConnects(b.blocks, bases, localBase + PinCount(b));
      var t := TranslateAll(b.statements, localBase).value;
      assert l.value == pins + t;
      PinConnectsWithin(b, base);
      LocalCountCovers(b);
      TranslateAllWithin(b.statements, localBase, LocalCount(b));
      AllWithinWiden(t, localBase, hi, base, hi);
      AllWithinAppend(pins, t, base, hi);
    }
  }

  /** Elaborating a block from base touches only the ids it hands out,
      [base, base + Size(b)): no instance reads or drives another's ids. */
  lemma {:induction false} ElaborateWithin(b: BlockDef, base: nat)
    ensures var e := Elaborate(b, base);
      e.Success? ==> AllWithin(e.value, base, base + Size(b))
    decreases b, |b.blocks| + 1
  {
    var e := Elaborate(b, base);
    if e.Success? {
      var start := base + PinCount(b);
      var n := |b.blocks|;
      var localBase := start + NestedSize(b, n);
      var bases := NestedBases(b, start, n);
      var nested := ElaborateNested(b, n, start);
      var local := LocalComponents(b, base, localBase, bases);
      ElaborateJoins(b, base);
      ElaborateNestedWithin(b, n, start);
      AllWithinWiden(nested.value, start, localBase, base, base + Size(b));
      LocalWithin(b, base);
      AllWithinAppend(nested.value, local.value, base, base + Size(b));
    }
  }

  lemma {:induction false} ElaborateNestedWithin(b: BlockDef, k: nat, start: nat)
    requires k <= |b.blocks|
    ensures var e := ElaborateNested(b, k, start);
      e.Success? ==> AllWithin(e.value, start, start + NestedSize(b, k))
    decreases b, k
  {
    var e := ElaborateNested(b, k, start);
    if k > 0 && e.Success? {
      var before := ElaborateNested(b, k - 1, start).value;
      var nestedBase := start + NestedSize(b, k - 1);
      var last := Elaborate(b.blocks[k - 1], nestedBase).value;
      ElaborateNestedWithin(b, k - 1, start);
      ElaborateWithin(b.blocks[k - 1], nestedBase);
      AllWithinWiden(before, start, nestedBase, start, start + NestedSize(b, k));
      AllWithinWiden(last, nestedBase, nestedBase + Size(b.blocks[k - 1]), start, start + NestedSize(b, k));
      AllWithinAppend(before, last, start, start + NestedSize(b, k));
    }
  }

  // ---------------------------------------------------------------------
  // Elaboration, on the circuit

  /** Emits n connections from from+i to to+i. */
  method EmitConnects(circuit: Circuit, from: nat, to: nat, n: nat)
    modifies circuit`components
    ensures circuit.components == old(circuit.components) + ConnectRow(from, to, n)
  {
    var i := 0;
    while i < n
      invariant i <= n
      invariant circuit.components == old(circuit.components) + ConnectRow(from, to, i)
    {
      var connector := Component(Connect, [], []).AddInput(from + i).AddOutput(to + i);
      assert connector == Component(Connect, [from + i], [to + i]);
      assert ConnectRow(from, to, i + 1) == ConnectRow(from, to, i) + [connector];
      circuit.AddComponent(connector);
      i := i + 1;
    }
  }

  /** For every nested block, connects each of its public pins to the
      next id of the local range, counting from count. */
  method EmitNestedConnects(blocks: seq<BlockDef>, bases: seq<nat>, localBase: nat, count: nat, circuit: Circuit)
      returns (newCount: nat)
    requires |bases| == |blocks|
    modifies circuit`components
    ensures newCount == count + PinSum(blocks)
    ensures circuit.components == old(circuit.components) + NestedConnects(blocks, bases, localBase + count)
  {
    newCount := count;
    for i := 0 to |blocks|
      invariant newCount == count + PinSum(blocks[..i])
      invariant circuit.components == old(circuit.components) + NestedConnects(blocks[..i], bases[..i], localBase + count)
    {
      assert blocks[..i + 1][..i] == blocks[..i];
      assert bases[..i + 1][..i] == bases[..i];
      var nestedIoSignalCount := blocks[i].inputSignals + blocks[i].outputSignals;
      EmitConnects(circuit, bases[i], localBase + newCount, nestedIoSignalCount);
      newCount := newCount + nestedIoSignalCount;
    }
    assert blocks[..|blocks|] == blocks;
    assert bases[..|bases|] == bases;
  }

  /** Raises count past every id of the list. */
  method RaiseCount(ids: seq<nat>, count: nat) returns (r: nat)
    ensures r == IdBound(ids, count)
  {
    r := count;
    for i := 0 to |ids|
      invariant r == IdBound(ids[..i], count)
    {
      assert ids[..i + 1][..i] == ids[..i];
      if ids[i] >= r {
        r := ids[i] + 1;
      }
    }
    assert ids[..|ids|] == ids;
  }

  /** The size of the local range: the pins and nested pins already
      counted, raised past every id the statements name. */
  method LocalSignalCount(statements: seq<Statement>, count: nat) returns (r: nat)
    ensures r == StatementsBound(statements, count)
  {
    r := count;
    for i := 0 to |statements|
      invariant r == StatementsBound(statements[..i], count)
    {
      assert statements[..i + 1][..i] == statements[..i];
      r := RaiseCount(statements[i].inputs, r);
      r := RaiseCount(statements[i].outputs, r);
    }
    assert statements[..|statements|] == statements;
  }

  /** The switch over the operation and the loops adding the shifted ids. */
  method TranslateStatement(statement: Statement, localBase: nat) returns (r: Result<Component>)
    ensures r == Translate(statement, localBase)
  {
    var kind := ComponentTypeOf(statement.op);
    if kind.None? {
      return Failure(UnsupportedOperation(statement.op));
    }
    var component := Component(kind.value, [], []);
    assert statement.inputs[..0] == [];
    for i := 0 to |statement.inputs|
      invariant component == Component(kind.value, Shifted(statement.inputs[..i], localBase), [])
    {
      assert statement.inputs[..i + 1][..i] == statement.inputs[..i];
      component := component.AddInput(localBase + statement.inputs[i]);
    }
    assert statement.inputs[..|statement.inputs|] == statement.inputs;
    assert statement.outputs[..0] == [];
    for i := 0 to |statement.outputs|
      invariant component == Component(kind.value, Shifted(statement.inputs, localBase), Shifted(statement.outputs[..i], localBase))
    {
      assert statement.outputs[..i + 1][..i] == statement.outputs[..i];
      component := component.AddOutput(localBase + statement.outputs[i]);
    }
    assert statement.outputs[..|statement.outputs|] == statement.outputs;
    r := Success(component);
  }

  /** Emits the block's statements as components, stopping at the first
      operation that has none. */
  method EmitStatements(statements: seq<Statement>, localBase: nat, circuit: Circuit) returns (r: Outcome)
    modifies circuit`components
    ensures var t := TranslateAll(statements, localBase);
      && (r.Pass? <==> t.Success?)
      && (r.Fail? ==> r.error == t.error)
      && (r.Pass? ==> circuit.components == old(circuit.components) + t.value)
  {
    for i := 0 to |statements|
      invariant TranslateAll(statements[..i], localBase).Success?
      invariant circuit.components == old(circuit.components) + TranslateAll(statements[..i], localBase).value
    {
      assert statements[..i + 1][..i] == statements[..i];
      var component := TranslateStatement(statements[i], localBase);
      if component.Failure? {
        TranslateAllStops(statements, localBase, i, |statements|);
        assert statements[..|statements|] == statements;
        return Fail(component.error);
      }
      circuit.AddComponent(component.value);
    }
    assert statements[..|statements|] == statements;
    r := Pass;
  }

  /** One turn of the nested-block loop: elaborates nested block i from the
      circuit's next free id. */
  method GenerateNestedBlock(block: BlockDef, i: nat, start: nat, ghost emitted: seq<Component>, circuit: Circuit)
      returns (outcome: Outcome)
    requires i < |block.blocks|
    requires ElaborateNested(block, i, start).Success?
    requires circuit.components == emitted + ElaborateNested(block, i, start).value
    requires circuit.signalCount == start + NestedSize(block, i)
    modifies circuit`signalCount, circuit`components
    ensures var e := ElaborateNested(block, i + 1, start);
      && (outcome.Pass? <==> e.Success?)
      && (outcome.Fail? ==> outcome.error == e.error)
      && (outcome.Pass? ==>
            && circuit.components == emitted + e.value
            && circuit.signalCount == start + NestedSize(block, i + 1))
    decreases block, 0
  {
    outcome := GenerateBlock(block.blocks[i], circuit);
    if outcome.Pass? {
      AppendAssociates(emitted, ElaborateNested(block, i, start).value,
                       Elaborate(block.blocks[i], start + NestedSize(block, i)).value);
    }
  }

  lemma {:induction false} NestedBasesNext(b: BlockDef, start: nat, k: nat)
    requires k < |b.blocks|
    ensures NestedBases(b, start, k + 1) == NestedBases(b, start, k) + [start + NestedSize(b, k)]
  {
  }

  /** Elaborates the nested blocks in order, each from the circuit's next
      free id, and records where each one starts. */
  method GenerateNestedBlocks(block: BlockDef, circuit: Circuit) returns (r: Outcome, bases: seq<nat>)
    modifies circuit`signalCount, circuit`components
    ensures var e := ElaborateNested(block, |block.blocks|, old(circuit.signalCount));
      && (r.Pass? <==> e.Success?)
      && (r.Fail? ==> r.error == e.error)
      && (r.Pass? ==>
            && circuit.components == old(circuit.components) + e.value
            && circuit.signalCount == old(circuit.signalCount) + NestedSize(block, |block.blocks|)
            && bases == NestedBases(block, old(circuit.signalCount), |block.blocks|))
    decreases block, 1
  {
    var start := circuit.signalCount;
    bases := [];
    for i := 0 to |block.blocks|
      invariant ElaborateNested(block, i, start).Success?
      invariant circuit.components == old(circuit.components) + ElaborateNested(block, i, start).value
      invariant circuit.signalCount == start + NestedSize(block, i)
      invariant bases == NestedBases(block, start, i)
    {
      NestedBasesNext(block, start, i);
      bases := bases + [circuit.signalCount];
      var outcome := GenerateNestedBlock(block, i, start, old(circuit.components), circuit);
      if outcome.Fail? {
        ElaborateNestedStops(block, start, i + 1, |block.blocks|);
        return outcome, bases;
      }
    }
    r := Pass;
  }

  /** The second half of generateBlock: connects the public and nested
      pins to the local range, allocates that range and emits the
      statements. */
  method GenerateLocal(block: BlockDef, publicBase: nat, bases: seq<nat>, circuit: Circuit) returns (r: Outcome)
    requires |bases| == |block.blocks|
    modifies circuit`signalCount, circuit`components
    ensures var l := LocalComponents(block, publicBase, old(circuit.signalCount), bases);
      && (r.Pass? <==> l.Success?)
      && (r.Fail? ==> r.error == l.error)
      && (r.Pass? ==>
            && circuit.components == old(circuit.components) + l.value
            && circuit.signalCount == old(circuit.signalCount) + LocalCount(block))
  {
    var localBase := circuit.signalCount;
    var ioSignalCount := block.inputSignals + block.outputSignals;
    EmitConnects(circuit, publicBase, localBase, ioSignalCount);
    var localSignalCount := ioSignalCount;
    localSignalCount := EmitNestedConnects(block.blocks, bases, localBase, localSignalCount, circuit);
    localSignalCount := LocalSignalCount(block.statements, localSignalCount);
    var _ := circuit.AllocateSignals(localSignalCount);
    ghost var connected := circuit.components;
    r := EmitStatements(block.statements, localBase, circuit);
    if r.Pass? {
      var row := ConnectRow(publicBase, localBase, PinCount(block));
      var nested := NestedConnects(block.blocks, bases, localBase + PinCount(block));
      var statements := TranslateAll(block.statements, localBase).value;
      AppendAssociates(old(circuit.components), row, nested);
      AppendAssociates(old(circuit.components), row + nested, statements);
    }
  }

  /** generateBlock: allocates the block's public pins, elaborates the
      nested blocks, then emits the local components. */
  method GenerateBlock(block: BlockDef, circuit: Circuit) returns (r: Outcome)
    modifies circuit`signalCount, circuit`components
    ensures var e := Elaborate(block, old(circuit.signalCount));
      && (r.Pass? <==> e.Success?)
      && (r.Fail? ==> r.error == e.error)
      && (r.Pass? ==>
            && circuit.components == old(circuit.components) + e.value
            && circuit.signalCount == old(circuit.signalCount) + Size(block))
    decreases block, 2
  {
    var ioSignalCount := block.inputSignals + block.outputSignals;
    var publicBase := circuit.AllocateSignals(ioSignalCount);
    var nested, nestedBases := GenerateNestedBlocks(block, circuit);
    if nested.Fail? {
      return nested;
    }
    ghost var start := publicBase + PinCount(block);
    ghost var nestedValue := ElaborateNested(block, |block.blocks|, start).value;
    ghost var localBase := start + NestedSize(block, |block.blocks|);
    assert circuit.components == old(circuit.components) + nestedValue;
    assert circuit.signalCount == localBase;
    r := GenerateLocal(block, publicBase, nestedBases, circuit);
    if r.Pass? {
      ghost var localValue := LocalComponents(block, publicBase, localBase, nestedBases).value;
      ElaborateJoins(block, publicBase);
      AppendAssociates(old(circuit.components), nestedValue, localValue);
    }
  }

  /** The index of the last block named main: generateCircuit keeps the
      last match of its loop. */
  function LastMain(blocks: seq<BlockDef>): (r: Option<nat>)
    ensures r.Some? ==> r.value < |blocks| && blocks[r.value].name == MainName
    ensures r.Some? ==> forall j :: r.value < j < |blocks| ==> blocks[j].name != MainName
    ensures r.None? ==> forall j :: 0 <= j < |blocks| ==> blocks[j].name != MainName
  {
    if blocks == [] then None
    else if blocks[|blocks| - 1].name == MainName then Some(|blocks| - 1)
    else LastMain(blocks[..|blocks| - 1])
  }

  /** generateCircuit: finds the last main block, sizes the circuit's
      public pins after it and elaborates it from id 0. Writing the
      circuit out is not part of this model. */
  method GenerateCircuit(file: File) returns (r: Result<Circuit>)
    ensures var m := LastMain(file.blocks);
      && (m.None? ==> r == Failure(NoMainBlock))
      && (m.Some? ==>
            var main := file.blocks[m.value];
            var e := Elaborate(main, 0);
            && (r.Success? <==> e.Success?)
            && (r.Failure? ==> r.error == e.error)
            && (r.Success? ==>
                  && fresh(r.value)
                  && r.value.inputSignalCount == main.inputSignals
                  && r.value.outputSignalCount == main.outputSignals
                  && r.value.components == e.value
                  && r.value.signalCount == Size(main)))
  {
    var mainIndex: Option<nat> := None;
    for i := 0 to |file.blocks|
      invariant mainIndex == LastMain(file.blocks[..i])
    {
      assert file.blocks[..i + 1][..i] == file.blocks[..i];
      if file.blocks[i].name == MainName {
        mainIndex := Some(i);
      }
    }
    assert file.blocks[..|file.blocks|] == file.blocks;
    if mainIndex.None? {
      return Failure(NoMainBlock);
    }
    var mainBlock := file.blocks[mainIndex.value];
    var circuit := new Circuit(mainBlock.inputSignals, mainBlock.outputSignals);
    var outcome := GenerateBlock(mainBlock, circuit);
    if outcome.Fail? {
      return Failure(outcome.error);
    }
    r := Success(circuit);
  }
}
