/** Symbols and scoped symbol tables (src/frontend/Symbol.h, TypeSymbol.h,
    SymbolTable.cpp). A block reference in a type is the position of the
    referenced block among the top-level blocks of the source file. */
module Symbols {
  import opened Wrappers

  /** Symbol::Type together with the block a Block-typed symbol instantiates. */
  datatype SymbolKind = In | Out | Block(block: nat)

  datatype TypeData = TypeData(kind: SymbolKind, width: nat)

  datatype Symbol = Symbol(name: string, typeData: TypeData)

  /** A named block definition registered in the root table. */
  datatype TypeSymbol = TypeSymbol(name: string, block: nat)

  function Names(ordered: seq<Symbol>): set<string>
  {
    set i | 0 <= i < |ordered| :: ordered[i].name
  }

  /** The names of a list of symbols, in order. */
  function SymbolNames(symbols: seq<Symbol>): (names: seq<string>)
    ensures |names| == |symbols|
    ensures forall i :: 0 <= i < |symbols| ==> names[i] == symbols[i].name
  {
    if symbols == [] then [] else SymbolNames(symbols[..|symbols| - 1]) + [symbols[|symbols| - 1].name]
  }

  lemma {:induction false} SymbolNamesAppend(a: seq<Symbol>, b: seq<Symbol>)
    ensures SymbolNames(a + b) == SymbolNames(a) + SymbolNames(b)
  {
    var ab := SymbolNames(a + b);
    var split := SymbolNames(a) + SymbolNames(b);
    assert |ab| == |split|;
    forall i | 0 <= i < |ab| ensures ab[i] == split[i] {
      if i < |a| {
        assert (a + b)[i] == a[i];
      } else {
        assert (a + b)[i] == b[i - |a|];
      }
    }
  }

  lemma NamesAppend(ordered: seq<Symbol>, s: Symbol)
    ensures Names(ordered + [s]) == Names(ordered) + {s.name}
  {
    var extended := ordered + [s];
    assert extended[|ordered|].name == s.name;
    forall n | n in Names(ordered) ensures n in Names(extended) {
      var i :| 0 <= i < |ordered| && ordered[i].name == n;
      assert extended[i].name == n;
    }
  }

  /** The map of a table and its insertion-ordered list hold the same
      symbols: the last symbol listed is the map's entry for its name, and
      the rest of the list describes the map without that name. */
  ghost predicate Indexed(symbols: map<string, Symbol>, ordered: seq<Symbol>)
    decreases |ordered|
  {
    if ordered == [] then symbols == map[]
    else
      var last := ordered[|ordered| - 1];
      && last.name in symbols && symbols[last.name] == last
      && Indexed(symbols - {last.name}, ordered[..|ordered| - 1])
  }

  /** The names listed are exactly the keys of the map, no name is listed
      twice, and each listed symbol is the map's entry for its name. */
  lemma {:induction false} IndexedMeaning(symbols: map<string, Symbol>, ordered: seq<Symbol>)
    requires Indexed(symbols, ordered)
    ensures symbols.Keys == Names(ordered)
    ensures forall i :: 0 <= i < |ordered| ==> ordered[i].name in symbols && symbols[ordered[i].name] == ordered[i]
    ensures forall i, j :: 0 <= i < j < |ordered| ==> ordered[i].name != ordered[j].name
    decreases |ordered|
  {
    if ordered != [] {
      var n := |ordered| - 1;
      var last, prefix := ordered[n], ordered[..n];
      var rest := symbols - {last.name};
      IndexedMeaning(rest, prefix);
      assert ordered == prefix + [last];
      NamesAppend(prefix, last);
      assert symbols.Keys == rest.Keys + {last.name};
      forall i | 0 <= i < n
        ensures ordered[i].name in symbols && symbols[ordered[i].name] == ordered[i]
      {
        assert ordered[i] == prefix[i];
      }
      forall i, j | 0 <= i < j < |ordered| ensures ordered[i].name != ordered[j].name {
        assert ordered[i] == prefix[i];
        if j < n {
          assert ordered[j] == prefix[j];
        }
      }
    }
  }

  /** Adding a symbol under a fresh name keeps the ordered list and the map in step. */
  lemma IndexedAppend(symbols: map<string, Symbol>, ordered: seq<Symbol>, s: Symbol)
    requires Indexed(symbols, ordered) && s.name !in symbols
    ensures Indexed(symbols[s.name := s], ordered + [s])
  {
    assert (ordered + [s])[..|ordered|] == ordered;
    assert symbols[s.name := s] - {s.name} == symbols;
  }

  /** The ordered list holds exactly the symbols of the map. */
  lemma IndexedMembers(symbols: map<string, Symbol>, ordered: seq<Symbol>)
    requires Indexed(symbols, ordered)
    ensures forall s :: s in ordered <==> s.name in symbols && symbols[s.name] == s
  {
    IndexedMeaning(symbols, ordered);
    forall s: Symbol | s.name in symbols && symbols[s.name] == s ensures s in ordered {
      var i :| 0 <= i < |ordered| && ordered[i].name == s.name;
    }
  }

  class SymbolTable {
    const parent: SymbolTable?
    var symbols: map<string, Symbol>
    var orderedSymbols: seq<Symbol>
    var types: map<string, TypeSymbol>
    /** Symbol::signal of each symbol, written by the intermediate generator. */
    var signals: map<string, nat>

    ghost predicate Valid()
      reads this`symbols, this`orderedSymbols
    {
      Indexed(symbols, orderedSymbols)
    }

    constructor (parent: SymbolTable?)
      ensures this.parent == parent
      ensures symbols == map[] && orderedSymbols == [] && types == map[] && signals == map[]
      ensures Valid()
    {
      this.parent := parent;
      symbols := map[];
      orderedSymbols := [];
      types := map[];
      signals := map[];
    }

    /** Inserts symbol unless its name is already taken in this table. */
    method Add(symbol: Symbol) returns (success: bool)
      requires Valid()
      modifies this`symbols, this`orderedSymbols
      ensures Valid()
      ensures success <==> symbol.name !in old(symbols)
      ensures success ==> symbols == old(symbols)[symbol.name := symbol]
                          && orderedSymbols == old(orderedSymbols) + [symbol]
      ensures !success ==> symbols == old(symbols) && orderedSymbols == old(orderedSymbols)
    {
      success := symbol.name !in symbols;
      if success {
        IndexedAppend(symbols, orderedSymbols, symbol);
        symbols := symbols[symbol.name := symbol];
        orderedSymbols := orderedSymbols + [symbol];
      }
    }

    /** Registers a block name unless it is already registered; an existing entry is kept. */
    method AddType(symbol: TypeSymbol) returns (success: bool)
      modifies this`types
      ensures success <==> symbol.name !in old(types)
      ensures types == if success then old(types)[symbol.name := symbol] else old(types)
    {
      success := symbol.name !in types;
      if success {
        types := types[symbol.name := symbol];
      }
    }

    method SetSignal(name: string, signal: nat)
      modifies this`signals
      ensures signals == old(signals)[name := signal]
    {
      signals := signals[name := signal];
    }

    /** The symbol declared under name in this table only. */
    function Find(name: string): (r: Option<Symbol>)
      reads this`symbols
      ensures r.Some? <==> name in symbols
      ensures r.Some? ==> r.value == symbols[name]
    {
      if name in symbols then Some(symbols[name]) else None
    }

    /** This table first, then the parent table only: the grandparent is never consulted. */
    function FindRecursive(name: string): (r: Option<Symbol>)
      reads this`symbols, (if parent == null then {} else {parent})`symbols
      ensures name in symbols ==> r == Some(symbols[name])
      ensures name !in symbols && parent != null ==> r == parent.Find(name)
      ensures r.Some? <==> name in symbols || (parent != null && name in parent.symbols)
    {
      match Find(name)
      case Some(s) => Some(s)
      case None => if parent == null then None else parent.Find(name)
    }

    function FindType(name: string): (r: Option<TypeSymbol>)
      reads this`types
      ensures r.Some? <==> name in types
      ensures r.Some? ==> r.value == types[name]
    {
      if name in types then Some(types[name]) else None
    }

    function FindTypeRecursive(name: string): (r: Option<TypeSymbol>)
      reads this`types, (if parent == null then {} else {parent})`types
      ensures name in types ==> r == Some(types[name])
      ensures name !in types && parent != null ==> r == parent.FindType(name)
      ensures r.Some? <==> name in types || (parent != null && name in parent.types)
    {
      match FindType(name)
      case Some(t) => Some(t)
      case None => if parent == null then None else parent.FindType(name)
    }

    /** The symbols in declaration order. */
    function GetSymbols(): (r: seq<Symbol>)
      reads this
      requires Valid()
      ensures forall s :: s in r <==> s.name in symbols && symbols[s.name] == s
    {
      IndexedMembers(symbols, orderedSymbols);
      orderedSymbols
    }
  }
}
