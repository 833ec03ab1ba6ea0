/** The Rust front end's symbol table (src/frontend/symbol_table.rs):
    symbols in declaration order plus a map from each name to its
    position. */
module SymbolTableRs {
  import opened Wrappers

  /** SymbolTypeSpecifier. A clock's edge is kept as a tag: EdgeType is not
      part of this model. A block reference is the position of the referenced
      block node. */
  datatype SymbolTypeSpecifier = Clock(edge: nat) | In | Out | Wire | Block(node: nat)

  datatype SymbolType = SymbolType(specifier: SymbolTypeSpecifier, width: nat)

  datatype Symbol = Symbol(name: string, typ: SymbolType, baseSignalId: nat, outputBaseSignalId: nat)

  datatype SymbolTableError = SymbolExists(name: string) | TypeExists(name: string)

  /** The map holds exactly the names of the symbols, each at its position. */
  ghost predicate Indexed(symbols: seq<Symbol>, symbolsMap: map<string, nat>)
  {
    && (forall name :: name in symbolsMap ==> symbolsMap[name] < |symbols| && symbols[symbolsMap[name]].name == name)
    && (forall i :: 0 <= i < |symbols| ==> symbols[i].name in symbolsMap && symbolsMap[symbols[i].name] == i)
  }

  /** An indexed table declares each name once. */
  lemma {:induction false} IndexedDistinct(symbols: seq<Symbol>, symbolsMap: map<string, nat>)
    requires Indexed(symbols, symbolsMap)
    ensures forall i, j :: 0 <= i < j < |symbols| ==> symbols[i].name != symbols[j].name
  {
    forall i, j | 0 <= i < j < |symbols|
      ensures symbols[i].name != symbols[j].name
    {
      assert symbolsMap[symbols[i].name] == i && symbolsMap[symbols[j].name] == j;
    }
  }

  /** Appending a symbol under a new name, indexed at the end, keeps the
      table indexed. */
  lemma {:induction false} IndexedPush(symbols: seq<Symbol>, symbolsMap: map<string, nat>, symbol: Symbol)
    requires Indexed(symbols, symbolsMap)
    requires symbol.name !in symbolsMap
    ensures Indexed(symbols + [symbol], symbolsMap[symbol.name := |symbols|])
  {
    var grown := symbols + [symbol];
    var grownMap := symbolsMap[symbol.name := |symbols|];
    forall name | name in grownMap
      ensures grownMap[name] < |grown| && grown[grownMap[name]].name == name
    {
      if name != symbol.name {
        assert grown[symbolsMap[name]] == symbols[symbolsMap[name]];
      }
    }
    forall i | 0 <= i < |grown|
      ensures grown[i].name in grownMap && grownMap[grown[i].name] == i
    {
      if i < |symbols| {
        assert grown[i] == symbols[i];
      }
    }
  }

  class SymbolTable {
    var symbols: seq<Symbol>
    var symbolsMap: map<string, nat>

    /** The map indexes the symbols, one entry per symbol. */
    ghost predicate Valid()
      reads this
    {
      Indexed(symbols, symbolsMap) && |symbolsMap| == |symbols|
    }

    constructor ()
      ensures symbols == [] && symbolsMap == map[]
      ensures Valid()
    {
      symbols := [];
      symbolsMap := map[];
    }

    /** SymbolTable::add: a taken name is refused and the table is left as it
        was; otherwise the symbol goes to the end and its name maps to that
        position. */
    method Add(symbol: Symbol) returns (r: Option<SymbolTableError>)
      requires Valid()
      modifies this
      ensures Valid()
      ensures r.Some? <==> symbol.name in old(symbolsMap)
      ensures r.Some? ==> r.value == SymbolExists(symbol.name)
                          && symbols == old(symbols) && symbolsMap == old(symbolsMap)
      ensures r.None? ==> symbols == old(symbols) + [symbol]
                          && symbolsMap == old(symbolsMap)[symbol.name := |old(symbols)|]
      ensures r.None? ==> Find(symbol.name) == Some(symbol)
                          && forall name :: name != symbol.name ==> Find(name) == old(Find(name))
    {
      if symbol.name in symbolsMap {
        return Some(SymbolExists(symbol.name));
      }
      IndexedPush(symbols, symbolsMap, symbol);
      symbols := symbols + [symbol];
      symbolsMap := symbolsMap[symbol.name := |symbols| - 1];
      return None;
    }

    /** SymbolTable::find: the symbol declared under `name`, if any. */
    function Find(name: string): (r: Option<Symbol>)
      requires Valid()
      reads this
      ensures r.Some? <==> exists i :: 0 <= i < |symbols| && symbols[i].name == name
      ensures r.Some? ==> r.value in symbols && r.value.name == name
    {
      if name in symbolsMap then Some(symbols[symbolsMap[name]]) else None
    }

    /** SymbolTable::find_mut: the position of the symbol a caller may then
        update in place, the same one Find returns. */
    function FindMut(name: string): (r: Option<nat>)
      requires Valid()
      reads this
      ensures r.Some? <==> Find(name).Some?
      ensures r.Some? ==> r.value < |symbols| && symbols[r.value] == Find(name).value
    {
      if name in symbolsMap then Some(symbolsMap[name]) else None
    }

    /** SymbolTable::iter: the symbols in declaration order, no name twice. */
    function Iter(): (r: seq<Symbol>)
      requires Valid()
      reads this
      ensures |r| == |symbolsMap|
      ensures forall i, j :: 0 <= i < j < |r| ==> r[i].name != r[j].name
      ensures forall name :: name in symbolsMap <==> exists i :: 0 <= i < |r| && r[i].name == name
    {
      IndexedDistinct(symbols, symbolsMap);
      symbols
    }
  }
}
